/** String helpers with JavaScript's meaning: `\s`, `trim`, `toLowerCase` (ASCII letters),
    `includes`, `split` on one character or on whitespace runs, and `join`. */
module Text {

  /** JavaScript's `\s` (and the set `String.prototype.trim` removes): the
      WhiteSpace and LineTerminator code points of ECMAScript. */
  predicate IsSpace(c: char) {
    c == ' ' || c == '\t' || c == '\n' || c == '\r' || c == 11 as char || c == 12 as char ||
    c == 0xA0 as char || c == 0x1680 as char || (0x2000 as char <= c <= 0x200A as char) ||
    c == 0x2028 as char || c == 0x2029 as char || c == 0x202F as char ||
    c == 0x205F as char || c == 0x3000 as char || c == 0xFEFF as char
  }

  /** The characters a regular-expression `.` does not match. */
  predicate IsLineTerminator(c: char) {
    c == '\n' || c == '\r' || c == 0x2028 as char || c == 0x2029 as char
  }

  predicate IsDigit(c: char) { '0' <= c <= '9' }

  predicate IsLowerAlnum(c: char) { 'a' <= c <= 'z' || IsDigit(c) }

  /** `toLowerCase` on one character, for the ASCII letters. */
  function Lower(c: char): (r: char)
    ensures 'A' <= c <= 'Z' ==> 'a' <= r <= 'z'
    ensures !('A' <= c <= 'Z') ==> r == c
  {
    if 'A' <= c <= 'Z' then (c as int + 32) as char else c
  }

  /** `toUpperCase` on one character, for the ASCII letters. */
  function Upper(c: char): (r: char)
    ensures 'a' <= c <= 'z' ==> 'A' <= r <= 'Z' && Lower(r) == c
    ensures !('a' <= c <= 'z') ==> r == c
  {
    if 'a' <= c <= 'z' then (c as int - 32) as char else c
  }

  function LowerStr(s: string): (r: string)
    ensures |r| == |s|
    ensures forall i :: 0 <= i < |s| ==> r[i] == Lower(s[i])
  {
    seq(|s|, i requires 0 <= i < |s| => Lower(s[i]))
  }

  predicate IsBlank(s: string) {
    forall i :: 0 <= i < |s| ==> IsSpace(s[i])
  }

  function LeadingSpaces(s: string): (n: nat)
    ensures n <= |s|
    ensures forall i :: 0 <= i < n ==> IsSpace(s[i])
    ensures n < |s| ==> !IsSpace(s[n])
  {
    if s == [] || !IsSpace(s[0]) then 0 else 1 + LeadingSpaces(s[1..])
  }

  function TrailingSpaces(s: string): (n: nat)
    ensures n <= |s|
    ensures forall i :: |s| - n <= i < |s| ==> IsSpace(s[i])
    ensures n < |s| ==> !IsSpace(s[|s| - n - 1])
  {
    if s == [] || !IsSpace(s[|s| - 1]) then 0 else 1 + TrailingSpaces(s[..|s| - 1])
  }

  /** `String.prototype.trim`. */
  function Trim(s: string): (r: string)
    ensures r == [] <==> IsBlank(s)
    ensures r != [] ==> !IsSpace(r[0]) && !IsSpace(r[|r| - 1])
    ensures |r| <= |s|
  {
    var t := s[LeadingSpaces(s)..];
    t[..|t| - TrailingSpaces(t)]
  }

  /** `trim` removes whitespace at both ends and keeps the middle as it is:
      the result is a slice of the input with only whitespace around it. */
  lemma TrimKeepsMiddle(s: string)
    ensures exists a, b :: 0 <= a <= b <= |s| && Trim(s) == s[a..b] && IsBlank(s[..a]) && IsBlank(s[b..])
  {
    var a := LeadingSpaces(s);
    var t := s[a..];
    var n := TrailingSpaces(t);
    var b := a + |t| - n;
    assert Trim(s) == s[a..b];
    assert IsBlank(s[..a]);
    forall i | 0 <= i < |s| - b ensures IsSpace(s[b..][i]) {
      assert s[b..][i] == t[|t| - n + i];
    }
  }

  /** `h.includes(n)`. */
  predicate Contains(h: string, n: string) {
    exists i :: 0 <= i <= |h| && OccursAt(h, n, i)
  }

  predicate OccursAt(h: string, n: string, i: nat) {
    i + |n| <= |h| && h[i..i + |n|] == n
  }

  /** `s.split(sep)` for a one-character separator: always at least one piece,
      empty pieces kept. */
  function Split(s: string, sep: char): (r: seq<string>)
    ensures |r| >= 1
    ensures forall i :: 0 <= i < |r| ==> sep !in r[i]
  {
    if s == [] then [""]
    else
      var rest := Split(s[1..], sep);
      if s[0] == sep then [""] + rest else [[s[0]] + rest[0]] + rest[1..]
  }

  /** `parts.join(sep)`. */
  function Join(parts: seq<string>, sep: string): string {
    if parts == [] then ""
    else if |parts| == 1 then parts[0]
    else parts[0] + sep + Join(parts[1..], sep)
  }

  /** Joining the pieces of a split with the separator gives back the string. */
  lemma {:induction false} JoinSplit(s: string, sep: char)
    ensures Join(Split(s, sep), [sep]) == s
  {
    if s != [] {
      var rest := Split(s[1..], sep);
      JoinSplit(s[1..], sep);
      if s[0] != sep {
        var parts := [[s[0]] + rest[0]] + rest[1..];
        if |rest| > 1 {
          assert parts[1..] == rest[1..];
        }
      }
    }
  }

  lemma {:induction false} SplitPrefix(w: string, t: string, sep: char)
    requires sep !in w
    ensures Split(w + t, sep) == [w + Split(t, sep)[0]] + Split(t, sep)[1..]
  {
    if w != [] {
      var st := Split(t, sep);
      assert (w + t)[1..] == w[1..] + t;
      SplitPrefix(w[1..], t, sep);
      var rest := Split(w[1..] + t, sep);
      assert rest[0] == w[1..] + st[0] && rest[1..] == st[1..];
      assert [w[0]] + (w[1..] + st[0]) == w + st[0];
    } else {
      var st := Split(t, sep);
      assert w + t == t;
      assert w + st[0] == st[0];
      assert [st[0]] + st[1..] == st;
    }
  }

  /** Splitting a join of separator-free pieces gives back the pieces. */
  lemma {:induction false} SplitJoin(parts: seq<string>, sep: char)
    requires |parts| >= 1
    requires forall i :: 0 <= i < |parts| ==> sep !in parts[i]
    ensures Split(Join(parts, [sep]), sep) == parts
  {
    if |parts| == 1 {
      SplitPrefix(parts[0], "", sep);
      assert parts[0] + "" == parts[0];
    } else {
      var j := Join(parts[1..], [sep]);
      SplitJoin(parts[1..], sep);
      assert parts[0] + [sep] + j == parts[0] + ([sep] + j);
      SplitPrefix(parts[0], [sep] + j, sep);
      assert ([sep] + j)[1..] == j;
      assert parts[0] + "" == parts[0];
    }
  }

  /** `s.split(/\s+/)`: the pieces between maximal runs of whitespace. */
  function SplitOnSpaces(s: string): (r: seq<string>)
    ensures |r| >= 1
    decreases |s|
  {
    if s == [] then [""]
    else if IsSpace(s[0]) then [""] + SplitOnSpaces(s[LeadingSpaces(s)..])
    else
      var rest := SplitOnSpaces(s[1..]);
      [[s[0]] + rest[0]] + rest[1..]
  }

  /** On a string that does not end in whitespace, every piece is free of
      whitespace and every piece after the first is non-empty: the pieces
      are its words. */
  lemma {:induction false} SplitOnSpacesWords(s: string)
    requires s == [] || !IsSpace(s[|s| - 1])
    ensures forall i, k :: 0 <= i < |SplitOnSpaces(s)| && 0 <= k < |SplitOnSpaces(s)[i]| ==> !IsSpace(SplitOnSpaces(s)[i][k])
    ensures forall i :: 1 <= i < |SplitOnSpaces(s)| ==> SplitOnSpaces(s)[i] != []
    ensures s != [] && !IsSpace(s[0]) ==> SplitOnSpaces(s)[0] != []
    decreases |s|
  {
    var r := SplitOnSpaces(s);
    if s != [] {
      if IsSpace(s[0]) {
        var u := s[LeadingSpaces(s)..];
        SplitOnSpacesWords(u);
      } else {
        var rest := SplitOnSpaces(s[1..]);
        SplitOnSpacesWords(s[1..]);
        var w := [s[0]] + rest[0];
        assert forall k :: 0 <= k < |w| ==> !IsSpace(w[k]) by {
          forall k | 0 <= k < |w| ensures !IsSpace(w[k]) {
            if k > 0 { assert w[k] == rest[0][k - 1]; }
          }
        }
        assert r == [w] + rest[1..];
      }
    }
  }

  /** A word that is free of whitespace stays one piece with whatever follows it
      up to the next whitespace. */
  lemma {:induction false} SplitOnSpacesPrefix(w: string, t: string)
    requires forall k :: 0 <= k < |w| ==> !IsSpace(w[k])
    ensures SplitOnSpaces(w + t) == [w + SplitOnSpaces(t)[0]] + SplitOnSpaces(t)[1..]
    decreases |w|
  {
    var st := SplitOnSpaces(t);
    if w == [] {
      assert w + t == t;
      assert w + st[0] == st[0];
      assert [st[0]] + st[1..] == st;
    } else {
      assert (w + t)[0] == w[0];
      assert (w + t)[1..] == w[1..] + t;
      SplitOnSpacesPrefix(w[1..], t);
      assert [w[0]] + (w[1..] + st[0]) == w + st[0];
    }
  }

  /** A join starts with the first character of its first piece. */
  lemma JoinFirst(ws: seq<string>, sep: string)
    requires |ws| >= 1 && ws[0] != []
    ensures Join(ws, sep) != [] && Join(ws, sep)[0] == ws[0][0]
  {
  }

  /** A join ends with the last character of its last piece. */
  lemma {:induction false} JoinLast(ws: seq<string>, sep: string)
    requires |ws| >= 1 && ws[|ws| - 1] != []
    ensures var j := Join(ws, sep); j != [] && j[|j| - 1] == ws[|ws| - 1][|ws[|ws| - 1]| - 1]
  {
    if |ws| > 1 {
      JoinLast(ws[1..], sep);
    }
  }

  /** Splitting on whitespace the words joined by single spaces gives back the words. */
  lemma {:induction false} SplitOnSpacesJoin(ws: seq<string>)
    requires |ws| >= 1
    requires forall i :: 0 <= i < |ws| ==> ws[i] != []
    requires forall i, k :: 0 <= i < |ws| && 0 <= k < |ws[i]| ==> !IsSpace(ws[i][k])
    ensures SplitOnSpaces(Join(ws, " ")) == ws
  {
    if |ws| == 1 {
      SplitOnSpacesPrefix(ws[0], "");
      assert ws[0] + "" == ws[0];
    } else {
      var j := Join(ws[1..], " ");
      SplitOnSpacesJoin(ws[1..]);
      JoinFirst(ws[1..], " ");
      SplitAfterSpace(j, ws[1..]);
      var t := " " + j;
      assert Join(ws, " ") == ws[0] + t;
      SplitOnSpacesPrefix(ws[0], t);
      assert ws[0] + "" == ws[0];
    }
  }

  /** One space in front of a word-initial string adds one empty first piece. */
  lemma SplitAfterSpace(j: string, pieces: seq<string>)
    requires j != [] && !IsSpace(j[0])
    requires SplitOnSpaces(j) == pieces
    ensures SplitOnSpaces(" " + j) == [""] + pieces
  {
    var t := " " + j;
    assert t[1..] == j;
    assert LeadingSpaces(t) == 1;
  }

  /** A string that neither starts nor ends with whitespace is its own trim. */
  lemma TrimUnchanged(s: string)
    requires s != [] ==> !IsSpace(s[0]) && !IsSpace(s[|s| - 1])
    ensures Trim(s) == s
  {
    assert LeadingSpaces(s) == 0;
    assert s[0..] == s;
    assert TrailingSpaces(s) == 0;
  }
}
