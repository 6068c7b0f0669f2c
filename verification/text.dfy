/** String helpers shared by the backend and the browser: splitting on a
    separator, joining, and trimming white space. Python's `str.strip()` and
    JavaScript's `String.prototype.trim()` disagree on a few characters, so
    each has its own white-space predicate. */
module Text {

  /** Python `str.isspace()` on one character (by code point). */
  predicate PyWhitespace(c: char) {
    var n := c as int;
    (0x09 <= n <= 0x0D) || (0x1C <= n <= 0x20) || n == 0x85 || n == 0xA0 || n == 0x1680
    || (0x2000 <= n <= 0x200A) || n == 0x2028 || n == 0x2029 || n == 0x202F || n == 0x205F || n == 0x3000
  }

  /** ECMAScript WhiteSpace or LineTerminator (by code point): what `trim()` removes. */
  predicate JsWhitespace(c: char) {
    var n := c as int;
    (0x09 <= n <= 0x0D) || n == 0x20 || n == 0xA0 || n == 0xFEFF || n == 0x1680
    || (0x2000 <= n <= 0x200A) || n == 0x2028 || n == 0x2029 || n == 0x202F || n == 0x205F || n == 0x3000
  }

  /** `s.split(sep)` in Python and JavaScript alike: the pieces between
      separators, always at least one (the empty string gives `[""]`). */
  function Split(s: string, sep: char): (parts: seq<string>)
    ensures |parts| >= 1
    ensures forall k :: 0 <= k < |parts| ==> sep !in parts[k]
  {
    if s == [] then [""]
    else
      var rest := Split(s[1..], sep);
      if s[0] == sep then [""] + rest
      else [[s[0]] + rest[0]] + rest[1..]
  }

  /** `sep.join(parts)` (Python) / `parts.join(sep)` (JavaScript). */
  function Join(parts: seq<string>, sep: string): string {
    if parts == [] then ""
    else if |parts| == 1 then parts[0]
    else parts[0] + sep + Join(parts[1..], sep)
  }

  /** Joining the pieces of a split with the same separator gives the string back. */
  lemma {:induction false} JoinSplit(s: string, sep: char)
    ensures Join(Split(s, sep), [sep]) == s
  {
    if s != [] {
      var rest := Split(s[1..], sep);
      JoinSplit(s[1..], sep);
      if s[0] == sep {
        assert Split(s, sep) == [""] + rest;
        assert ([""] + rest)[1..] == rest;
      } else {
        var parts := Split(s, sep);
        assert parts == [[s[0]] + rest[0]] + rest[1..];
        if |rest| == 1 {
          assert parts == [[s[0]] + rest[0]];
        } else {
          assert parts[1..] == rest[1..];
          assert Join(rest, [sep]) == rest[0] + [sep] + Join(rest[1..], [sep]);
        }
      }
    }
  }

  /** Splitting a string that starts with a separator-free piece and a separator. */
  lemma {:induction false} SplitAfterPiece(a: string, b: string, sep: char)
    requires sep !in a
    ensures Split(a + [sep] + b, sep) == [a] + Split(b, sep)
  {
    if a == [] {
      assert a + [sep] + b == [sep] + b;
      assert ([sep] + b)[1..] == b;
    } else {
      SplitAfterPiece(a[1..], b, sep);
      assert (a + [sep] + b)[1..] == a[1..] + [sep] + b;
      assert [a[0]] + a[1..] == a;
    }
  }

  /** A string without the separator is a single piece. */
  lemma {:induction false} SplitNoSeparator(a: string, sep: char)
    requires sep !in a
    ensures Split(a, sep) == [a]
  {
    if a != [] {
      SplitNoSeparator(a[1..], sep);
      assert [a[0]] + a[1..] == a;
    }
  }

  function TrimStart(s: string, ws: char -> bool): (r: string)
    ensures |r| <= |s| && r == s[|s| - |r|..]
    ensures forall k :: 0 <= k < |s| - |r| ==> ws(s[k])
    ensures r != [] ==> !ws(r[0])
  {
    if s != [] && ws(s[0]) then TrimStart(s[1..], ws) else s
  }

  function TrimEnd(s: string, ws: char -> bool): (r: string)
    ensures |r| <= |s| && r == s[..|r|]
    ensures forall k :: |r| <= k < |s| ==> ws(s[k])
    ensures r != [] ==> !ws(r[|r| - 1])
  {
    if s != [] && ws(s[|s| - 1]) then TrimEnd(s[..|s| - 1], ws) else s
  }

  /** `strip()` / `trim()`: `s` without its leading and trailing white space. */
  function Trim(s: string, ws: char -> bool): string {
    TrimEnd(TrimStart(s, ws), ws)
  }

  /** `Trim` keeps the characters of `s` that follow the leading white
      space, in order, and starts and ends on a non-white-space character. */
  lemma {:induction false} TrimIsSlice(s: string, ws: char -> bool)
    ensures var r, i := Trim(s, ws), |s| - |TrimStart(s, ws)|;
      && i + |r| <= |s|
      && (forall k :: 0 <= k < |r| ==> r[k] == s[i + k])
      && (r != [] ==> !ws(r[0]) && !ws(r[|r| - 1]))
  {
    var t := TrimStart(s, ws);
    TrimStartChars(s, ws);
    TrimEndChars(t, ws);
  }

  lemma TrimStartChars(s: string, ws: char -> bool)
    ensures var t := TrimStart(s, ws);
      forall k :: 0 <= k < |t| ==> t[k] == s[|s| - |t| + k]
  {
    var t := TrimStart(s, ws);
    assert t == s[|s| - |t|..];
  }

  lemma TrimEndChars(t: string, ws: char -> bool)
    ensures var r := TrimEnd(t, ws);
      forall k :: 0 <= k < |r| ==> r[k] == t[k]
  {
    var r := TrimEnd(t, ws);
    assert r == t[..|r|];
  }

  /** A trimmed, non-empty word has no white space at either end. */
  predicate IsTrimmedWord(t: string, ws: char -> bool) {
    t != [] && !ws(t[0]) && !ws(t[|t| - 1])
  }

  /** Leading white space in front of a trimmed word is all that `Trim` removes. */
  lemma {:induction false} TrimAfterBlanks(pre: string, t: string, ws: char -> bool)
    requires forall k :: 0 <= k < |pre| ==> ws(pre[k])
    requires IsTrimmedWord(t, ws)
    ensures Trim(pre + t, ws) == t
  {
    if pre == [] {
      assert pre + t == t;
    } else {
      assert (pre + t)[1..] == pre[1..] + t;
      TrimAfterBlanks(pre[1..], t, ws);
    }
  }

  /** The trimmed pieces that are not empty, in order: the comprehension
      `[t.strip() for t in parts if t.strip()]` and the chain
      `parts.map(t => t.trim()).filter(t => t.length > 0)`. */
  function NonEmptyTrimmed(parts: seq<string>, ws: char -> bool): (r: seq<string>)
    ensures |r| <= |parts|
  {
    if parts == [] then []
    else
      var t := Trim(parts[0], ws);
      (if t != [] then [t] else []) + NonEmptyTrimmed(parts[1..], ws)
  }

  /** The comma-separated words of `s`, trimmed, empties dropped, order kept. */
  function CommaWords(s: string, ws: char -> bool): seq<string> {
    NonEmptyTrimmed(Split(s, ','), ws)
  }

  /** Every word `CommaWords` yields is a trimmed, non-empty, comma-free word. */
  lemma {:induction false} NonEmptyTrimmedWords(parts: seq<string>, ws: char -> bool)
    requires forall k :: 0 <= k < |parts| ==> ',' !in parts[k]
    ensures forall k :: 0 <= k < |NonEmptyTrimmed(parts, ws)| ==>
      var w := NonEmptyTrimmed(parts, ws)[k]; IsTrimmedWord(w, ws) && ',' !in w
  {
    if parts != [] {
      var t := Trim(parts[0], ws);
      var all, rest := NonEmptyTrimmed(parts, ws), NonEmptyTrimmed(parts[1..], ws);
      assert all == (if t != [] then [t] else []) + rest;
      NonEmptyTrimmedWords(parts[1..], ws) by {
        assert forall k :: 0 <= k < |parts[1..]| ==> parts[1..][k] == parts[k + 1];
      }
      forall k | 0 <= k < |all| ensures IsTrimmedWord(all[k], ws) && ',' !in all[k] {
        if t == [] {
          assert all[k] == rest[k];
        } else if k > 0 {
          assert all[k] == rest[k - 1];
        } else {
          TrimmedPiece(parts[0], ws);
        }
      }
    }
  }

  /** A comma-free piece trims to a comma-free word, if to anything. */
  lemma TrimmedPiece(s: string, ws: char -> bool)
    requires ',' !in s
    ensures var t := Trim(s, ws); t != [] ==> IsTrimmedWord(t, ws) && ',' !in t
  {
    TrimIsSlice(s, ws);
    var t := Trim(s, ws);
    var i := |s| - |TrimStart(s, ws)|;
    forall c | c in t ensures c in s {
      var k :| 0 <= k < |t| && t[k] == c;
      assert s[i + k] == c;
    }
  }

  lemma CommaWordsAreWords(s: string, ws: char -> bool)
    ensures forall k :: 0 <= k < |CommaWords(s, ws)| ==>
      var w := CommaWords(s, ws)[k]; IsTrimmedWord(w, ws) && ',' !in w
  {
    NonEmptyTrimmedWords(Split(s, ','), ws);
  }

  /** Words that are trimmed and comma-free survive `join(", ")` followed by
      `CommaWords`, whatever white space precedes the first one. */
  lemma {:induction false} CommaWordsOfJoinAfter(pre: string, words: seq<string>, ws: char -> bool)
    requires ws(' ')
    requires forall k :: 0 <= k < |pre| ==> ws(pre[k]) && pre[k] != ','
    requires forall k :: 0 <= k < |words| ==> IsTrimmedWord(words[k], ws) && ',' !in words[k]
    ensures words != [] ==> CommaWords(pre + Join(words, ", "), ws) == words
    decreases |words|
  {
    if words != [] {
      var w := words[0];
      assert ',' !in pre + w by {
        forall k | 0 <= k < |pre + w| ensures (pre + w)[k] != ',' {
          if k >= |pre| { assert (pre + w)[k] == w[k - |pre|]; }
        }
      }
      TrimAfterBlanks(pre, w, ws);
      if |words| == 1 {
        assert pre + Join(words, ", ") == pre + w;
        SplitNoSeparator(pre + w, ',');
        assert Split(pre + w, ',')[1..] == [];
      } else {
        var rest := Join(words[1..], ", ");
        assert pre + Join(words, ", ") == (pre + w) + [','] + (" " + rest);
        SplitAfterPiece(pre + w, " " + rest, ',');
        var parts := Split(pre + Join(words, ", "), ',');
        assert parts == [pre + w] + Split(" " + rest, ',');
        assert parts[1..] == Split(" " + rest, ',');
        CommaWordsOfJoinAfter(" ", words[1..], ws);
      }
    }
  }

  /** Round trip: trimmed, comma-free words joined with ", " split back into
      the same list; the empty list joins to "" (which callers treat as no tags). */
  lemma CommaWordsOfJoin(words: seq<string>, ws: char -> bool)
    requires ws(' ')
    requires forall k :: 0 <= k < |words| ==> IsTrimmedWord(words[k], ws) && ',' !in words[k]
    ensures words != [] ==> CommaWords(Join(words, ", "), ws) == words
  {
    assert "" + Join(words, ", ") == Join(words, ", ");
    CommaWordsOfJoinAfter("", words, ws);
  }

  /** Two white-space predicates that agree on a string trim it alike. */
  lemma {:induction false} TrimAgrees(s: string, ws1: char -> bool, ws2: char -> bool)
    requires forall c :: c in s ==> ws1(c) == ws2(c)
    ensures Trim(s, ws1) == Trim(s, ws2)
  {
    TrimStartAgrees(s, ws1, ws2);
    var t := TrimStart(s, ws1);
    TrimEndAgrees(t, ws1, ws2);
  }

  lemma {:induction false} TrimStartAgrees(s: string, ws1: char -> bool, ws2: char -> bool)
    requires forall c :: c in s ==> ws1(c) == ws2(c)
    ensures TrimStart(s, ws1) == TrimStart(s, ws2)
  {
    if s != [] && ws1(s[0]) {
      TrimStartAgrees(s[1..], ws1, ws2);
    }
  }

  lemma {:induction false} TrimEndAgrees(s: string, ws1: char -> bool, ws2: char -> bool)
    requires forall c :: c in s ==> ws1(c) == ws2(c)
    ensures TrimEnd(s, ws1) == TrimEnd(s, ws2)
  {
    if s != [] && ws1(s[|s| - 1]) {
      TrimEndAgrees(s[..|s| - 1], ws1, ws2);
    }
  }

  /** Every piece of a split is made of characters of the split string. */
  lemma {:induction false} SplitChars(s: string, sep: char)
    ensures forall k, c :: 0 <= k < |Split(s, sep)| && c in Split(s, sep)[k] ==> c in s
  {
    if s != [] {
      SplitChars(s[1..], sep);
      var rest := Split(s[1..], sep);
      var parts := Split(s, sep);
      forall k, c | 0 <= k < |parts| && c in parts[k] ensures c in s {
        if s[0] == sep {
          assert k > 0 && parts[k] == rest[k - 1];
          assert c in s[1..];
        } else if k == 0 {
          assert parts[0] == [s[0]] + rest[0];
          assert c == s[0] || c in rest[0];
          assert c == s[0] || c in s[1..];
        } else {
          assert parts[k] == rest[k];
          assert c in s[1..];
        }
      }
    }
  }

  lemma {:induction false} NonEmptyTrimmedAgrees(parts: seq<string>, s: string, ws1: char -> bool, ws2: char -> bool)
    requires forall c :: c in s ==> ws1(c) == ws2(c)
    requires forall k, c :: 0 <= k < |parts| && c in parts[k] ==> c in s
    ensures NonEmptyTrimmed(parts, ws1) == NonEmptyTrimmed(parts, ws2)
  {
    if parts != [] {
      TrimAgrees(parts[0], ws1, ws2);
      NonEmptyTrimmedAgrees(parts[1..], s, ws1, ws2);
    }
  }

  /** Where two white-space predicates agree on every character of `s`, the
      comma words they produce are the same. */
  lemma CommaWordsAgree(s: string, ws1: char -> bool, ws2: char -> bool)
    requires forall c :: c in s ==> ws1(c) == ws2(c)
    ensures CommaWords(s, ws1) == CommaWords(s, ws2)
  {
    SplitChars(s, ',');
    NonEmptyTrimmedAgrees(Split(s, ','), s, ws1, ws2);
  }
}
