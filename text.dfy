/**
 * The string helpers the bootstrapper relies on: Python's str.split() with no
 * argument, ' '.join, ASCII lower-casing and truncate_plain_text.
 */
module Text {
  import opened Wrappers

  /** The characters for which Python's str.isspace() holds; str.split() separates on runs of them. */
  predicate IsSpace(c: char) {
    var n := c as int;
    (9 <= n <= 13) || (28 <= n <= 32) || n == 0x85 || n == 0xA0 || n == 0x1680
    || (0x2000 <= n <= 0x200A) || n == 0x2028 || n == 0x2029 || n == 0x202F
    || n == 0x205F || n == 0x3000
  }

  /** A piece that str.split() can produce: non-empty and free of whitespace. */
  predicate IsWord(w: string) {
    |w| > 0 && forall i :: 0 <= i < |w| ==> !IsSpace(w[i])
  }

  predicate IsLower(s: string) {
    forall i :: 0 <= i < |s| ==> !('A' <= s[i] <= 'Z')
  }

  function LowerChar(c: char): char {
    if 'A' <= c <= 'Z' then (c as int + 32) as char else c
  }

  /** str.lower(), restricted to the ASCII letters. */
  function Lower(s: string): (r: string)
    ensures |r| == |s| && IsLower(r)
    ensures forall i :: 0 <= i < |s| ==> r[i] == s[i] || ('A' <= s[i] <= 'Z' && r[i] as int == s[i] as int + 32)
    ensures IsLower(s) ==> r == s
    ensures IsWord(s) ==> IsWord(r)
  {
    seq(|s|, i requires 0 <= i < |s| => LowerChar(s[i]))
  }

  // ---------------------------------------------------------------------
  // str.split()
  // ---------------------------------------------------------------------

  /** Number of leading non-whitespace characters. */
  function WordLen(s: string): (n: nat)
    ensures n <= |s|
    ensures forall i :: 0 <= i < n ==> !IsSpace(s[i])
    ensures n < |s| ==> IsSpace(s[n])
  {
    if s == [] || IsSpace(s[0]) then 0 else 1 + WordLen(s[1..])
  }

  /** Python's s.split(): the maximal whitespace-free runs of s, in order. */
  function Split(s: string): (ws: seq<string>)
    ensures forall i :: 0 <= i < |ws| ==> IsWord(ws[i])
  {
    if s == [] then []
    else if IsSpace(s[0]) then Split(s[1..])
    else
      var j := WordLen(s);
      [s[..j]] + Split(s[j..])
  }

  /** Python's ' '.join(ws). */
  function Join(ws: seq<string>): (r: string)
    ensures |ws| == 0 ==> r == ""
    ensures |ws| == 1 ==> r == ws[0]
    ensures |ws| >= 2 ==> r != ""
  {
    if |ws| == 0 then ""
    else if |ws| == 1 then ws[0]
    else ws[0] + " " + Join(ws[1..])
  }

  function Concat(ws: seq<string>): string {
    if ws == [] then "" else ws[0] + Concat(ws[1..])
  }

  /** The characters of s that are not whitespace, in order. */
  function NonSpace(s: string): string {
    if s == [] then ""
    else (if IsSpace(s[0]) then "" else [s[0]]) + NonSpace(s[1..])
  }

  lemma {:induction false} NonSpaceAppend(a: string, b: string)
    ensures NonSpace(a + b) == NonSpace(a) + NonSpace(b)
  {
    if a != [] {
      assert (a + b)[1..] == a[1..] + b;
      NonSpaceAppend(a[1..], b);
    } else {
      assert a + b == b;
    }
  }

  lemma {:induction false} NonSpaceOfSpaces(a: string)
    requires forall i :: 0 <= i < |a| ==> IsSpace(a[i])
    ensures NonSpace(a) == ""
  {
    if a != [] {
      NonSpaceOfSpaces(a[1..]);
    }
  }

  lemma {:induction false} NonSpaceOfWordChars(a: string)
    requires forall i :: 0 <= i < |a| ==> !IsSpace(a[i])
    ensures NonSpace(a) == a
  {
    if a != [] {
      NonSpaceOfWordChars(a[1..]);
      assert a == [a[0]] + a[1..];
    }
  }

  /** Splitting loses only whitespace: the words, glued together, are the non-space characters of s. */
  lemma {:induction false} SplitKeepsText(s: string)
    ensures Concat(Split(s)) == NonSpace(s)
  {
    if s != [] {
      if IsSpace(s[0]) {
        SplitKeepsText(s[1..]);
      } else {
        var j := WordLen(s);
        assert s == s[..j] + s[j..];
        NonSpaceAppend(s[..j], s[j..]);
        NonSpaceOfWordChars(s[..j]);
        SplitKeepsText(s[j..]);
        assert Split(s) == [s[..j]] + Split(s[j..]);
      }
    }
  }

  lemma {:induction false} WordLenOfWord(w: string, rest: string)
    requires IsWord(w)
    requires rest == [] || IsSpace(rest[0])
    ensures WordLen(w + rest) == |w|
    decreases |w|
  {
    assert (w + rest)[0] == w[0];
    assert (w + rest)[1..] == w[1..] + rest;
    if |w| == 1 {
      assert w[1..] + rest == rest;
    } else {
      WordLenOfWord(w[1..], rest);
    }
  }

  /** Joining words with single spaces and splitting again gives back the same words. */
  lemma {:induction false} SplitJoin(ws: seq<string>)
    requires forall i :: 0 <= i < |ws| ==> IsWord(ws[i])
    ensures Split(Join(ws)) == ws
  {
    if |ws| == 1 {
      SplitWord(ws[0]);
    } else if |ws| > 1 {
      assert Join(ws) == ws[0] + [' '] + Join(ws[1..]);
      SplitAtSpace(ws[0], ' ', Join(ws[1..]));
      SplitWord(ws[0]);
      SplitJoin(ws[1..]);
      assert ws == [ws[0]] + ws[1..];
    }
  }

  /** A whitespace-free word splits into itself alone. */
  lemma SplitWord(w: string)
    requires IsWord(w)
    ensures Split(w) == [w]
  {
    WordLenOfWord(w, "");
    assert w + "" == w;
    assert w[|w|..] == "";
  }

  /** The leading word of a + [c] + b ends inside a when c is whitespace. */
  lemma {:induction false} WordLenBeforeSpace(a: string, c: char, b: string)
    requires IsSpace(c)
    ensures WordLen(a + [c] + b) == WordLen(a)
    decreases |a|
  {
    var s := a + [c] + b;
    if a != [] && !IsSpace(a[0]) {
      assert s[0] == a[0];
      assert s[1..] == a[1..] + [c] + b;
      WordLenBeforeSpace(a[1..], c, b);
    }
  }

  /** Pieces break at every whitespace character: the split of a + [c] + b is the split of a followed by that of b. */
  lemma {:induction false} SplitAtSpace(a: string, c: char, b: string)
    requires IsSpace(c)
    ensures Split(a + [c] + b) == Split(a) + Split(b)
    decreases |a|
  {
    var s := a + [c] + b;
    if a == [] {
      assert s == [c] + b;
      assert s[1..] == b;
    } else if IsSpace(a[0]) {
      assert s[0] == a[0];
      assert s[1..] == a[1..] + [c] + b;
      SplitAtSpace(a[1..], c, b);
    } else {
      assert s[0] == a[0];
      WordLenBeforeSpace(a, c, b);
      var j := WordLen(a);
      assert s[..j] == a[..j];
      assert s[j..] == a[j..] + [c] + b;
      SplitAtSpace(a[j..], c, b);
    }
  }

  /** Each word lower-cased, as the comprehension over q.split() does. */
  function LowerEach(ws: seq<string>): seq<string> {
    seq(|ws|, i requires 0 <= i < |ws| => Lower(ws[i]))
  }

  lemma {:induction false} WordLenLower(s: string)
    ensures WordLen(Lower(s)) == WordLen(s)
    decreases |s|
  {
    if s != [] {
      assert Lower(s)[1..] == Lower(s[1..]);
      WordLenLower(s[1..]);
    }
  }

  /** Lower-casing commutes with taking a prefix or a suffix. */
  lemma LowerSlices(s: string, j: int)
    requires 0 <= j <= |s|
    ensures Lower(s)[..j] == Lower(s[..j]) && Lower(s)[j..] == Lower(s[j..])
  {
  }

  lemma LowerEachCons(w: string, ws: seq<string>)
    ensures LowerEach([w] + ws) == [Lower(w)] + LowerEach(ws)
  {
  }

  lemma LowerHead(s: string)
    requires s != []
    ensures Lower(s)[0] == LowerChar(s[0]) && (IsSpace(Lower(s)[0]) <==> IsSpace(s[0]))
  {
  }

  /** Lower-casing the pieces of s.split() gives the pieces of s.lower().split(). */
  lemma {:induction false} SplitLower(s: string)
    ensures Split(Lower(s)) == LowerEach(Split(s))
    decreases |s|
  {
    if s != [] {
      LowerHead(s);
      if IsSpace(s[0]) {
        LowerSlices(s, 1);
        SplitLower(s[1..]);
      } else {
        WordLenLower(s);
        var j := WordLen(s);
        LowerSlices(s, j);
        SplitLower(s[j..]);
        LowerEachCons(s[..j], Split(s[j..]));
      }
    }
  }

  // ---------------------------------------------------------------------
  // truncate_plain_text
  // ---------------------------------------------------------------------

  /** The cap the controller passes to truncate_plain_text. */
  const Cap: int := 20000

  /** Python's s[:stop]: a negative stop counts from the end; the result is clamped to s. */
  function PrefixSlice(s: string, stop: int): (r: string)
    ensures r <= s
    ensures |r| == (if stop >= 0 then Min(stop, |s|) else Max(|s| + stop, 0))
  {
    if stop >= 0 then s[..Min(stop, |s|)] else s[..Max(|s| + stop, 0)]
  }

  /** truncate_plain_text: the text cut to its first cap characters when it is longer. */
  function Truncate(text: string, cap: int): (r: string)
    ensures r <= text
    ensures |text| <= cap ==> r == text
    ensures cap >= 0 ==> |r| == Min(|text|, cap)
    ensures cap < 0 ==> |r| == Max(|text| + cap, 0)
  {
    if |text| > cap then PrefixSlice(text, cap) else text
  }

  lemma TruncateIdempotent(text: string, cap: int)
    requires cap >= 0
    ensures Truncate(Truncate(text, cap), cap) == Truncate(text, cap)
  {
  }
}
