/** The parts of Python's `str` that the command handlers rely on: `lower`,
    `in`, `replace(p, "")`, `strip`, `split(sep)` and `split()`. */
module Text {

  /** `c.isspace()` in Python: the ASCII controls 9-13 and 28-31, the space,
      and the Unicode separators Python treats as whitespace. */
  predicate IsSpace(c: char) {
    || c == ' '
    || ('\t' <= c <= '\r')
    || ('\U{1C}' <= c <= '\U{1F}')
    || c == '\U{85}' || c == '\U{A0}' || c == '\U{1680}'
    || ('\U{2000}' <= c <= '\U{200A}')
    || c == '\U{2028}' || c == '\U{2029}' || c == '\U{202F}' || c == '\U{205F}' || c == '\U{3000}'
  }

  predicate AllSpace(s: string) {
    forall k :: 0 <= k < |s| ==> IsSpace(s[k])
  }

  // ---------------------------------------------------------------- lower

  function LowerChar(c: char): char {
    if 'A' <= c <= 'Z' then (c as int + 32) as char else c
  }

  /** `s.lower()`, character by character. */
  function Lower(s: string): (r: string)
    ensures |r| == |s|
    ensures forall k :: 0 <= k < |s| ==> r[k] == LowerChar(s[k])
  {
    if s == [] then [] else [LowerChar(s[0])] + Lower(s[1..])
  }

  /** No character of s changes under lower(). */
  predicate IsLower(s: string) {
    forall c :: c in s ==> LowerChar(c) == c
  }

  lemma LowerIsLower(s: string)
    ensures IsLower(Lower(s))
    ensures Lower(Lower(s)) == Lower(s)
  {
    var r := Lower(s);
    forall c | c in r ensures LowerChar(c) == c {
      var k :| 0 <= k < |r| && r[k] == c;
    }
  }

  // ---------------------------------------------------------------- in

  predicate StartsWith(s: string, p: string) {
    |p| <= |s| && s[..|p|] == p
  }

  /** Python's `p in s`, tried position by position from the left. */
  predicate Contains(s: string, p: string)
    decreases |s|
  {
    StartsWith(s, p) || (|s| > 0 && Contains(s[1..], p))
  }

  /** p occurs in s starting at index i. */
  predicate OccursAt(s: string, p: string, i: int) {
    0 <= i && i + |p| <= |s| && s[i..i + |p|] == p
  }

  /** The left-to-right search finds p exactly when some position of s starts
      an occurrence of p. */
  lemma {:induction false} ContainsIffOccurs(s: string, p: string)
    ensures Contains(s, p) <==> exists i :: OccursAt(s, p, i)
    decreases |s|
  {
    if StartsWith(s, p) {
      assert OccursAt(s, p, 0);
    } else if |s| == 0 {
      assert !exists i :: OccursAt(s, p, i);
    } else {
      ContainsIffOccurs(s[1..], p);
      forall j | OccursAt(s[1..], p, j) ensures OccursAt(s, p, j + 1) {
        assert s[1..][j..j + |p|] == s[j + 1..j + 1 + |p|];
      }
      forall i | OccursAt(s, p, i) ensures OccursAt(s[1..], p, i - 1) {
        assert i != 0;
        assert s[1..][i - 1..i - 1 + |p|] == s[i..i + |p|];
      }
    }
  }

  lemma ContainsEmpty(s: string)
    ensures Contains(s, [])
  {
    assert StartsWith(s, []);
  }

  lemma {:induction false} ContainsInSuffix(s: string, i: int, p: string)
    requires 0 <= i <= |s| && Contains(s[i..], p)
    ensures Contains(s, p)
    decreases i
  {
    if i > 0 {
      assert s[1..][i - 1..] == s[i..];
      ContainsInSuffix(s[1..], i - 1, p);
    }
  }

  lemma {:induction false} ContainsInPrefix(s: string, j: int, p: string)
    requires 0 <= j <= |s| && Contains(s[..j], p)
    ensures Contains(s, p)
    decreases j
  {
    if StartsWith(s[..j], p) {
      assert s[..j][..|p|] == s[..|p|];
    } else {
      assert s[..j][1..] == s[1..][..j - 1];
      ContainsInPrefix(s[1..], j - 1, p);
    }
  }

  // ---------------------------------------------------------------- replace

  /** `s.replace(p, "")` for a non-empty p: occurrences are found left to right
      and do not overlap; the text between them is kept. */
  function RemoveAll(s: string, p: string): (r: string)
    requires |p| > 0
    ensures |r| <= |s|
    ensures forall c :: c in r ==> c in s
    decreases |s|
  {
    if |s| < |p| then s
    else if s[..|p|] == p then
      var rest := RemoveAll(s[|p|..], p);
      assert forall c :: c in rest ==> c in s by {
        forall c | c in rest ensures c in s {
          var k :| 0 <= k < |rest| && rest[k] == c;
          assert c in s[|p|..];
        }
      }
      rest
    else
      var rest := RemoveAll(s[1..], p);
      assert forall c :: c in rest ==> c in s by {
        forall c | c in rest ensures c in s {
          assert c in s[1..];
        }
      }
      [s[0]] + rest
  }

  /** Removing p changes the text exactly when p occurs in it. */
  lemma {:induction false} RemoveAllUnchangedIff(s: string, p: string)
    requires |p| > 0
    ensures RemoveAll(s, p) == s <==> !Contains(s, p)
    decreases |s|
  {
    if |s| < |p| {
      ContainsIffOccurs(s, p);
    } else if s[..|p|] == p {
      assert StartsWith(s, p);
    } else {
      assert !StartsWith(s, p);
      RemoveAllUnchangedIff(s[1..], p);
      var rest := RemoveAll(s[1..], p);
      if rest == s[1..] {
        assert [s[0]] + rest == s;
      } else {
        assert ([s[0]] + rest)[1..] == rest;
      }
    }
  }

  // ---------------------------------------------------------------- strip

  function TrimStart(s: string): (r: string)
    ensures |r| <= |s| && r == s[|s| - |r|..]
    ensures forall k :: 0 <= k < |s| - |r| ==> IsSpace(s[k])
    ensures r == [] || !IsSpace(r[0])
    decreases |s|
  {
    if |s| > 0 && IsSpace(s[0]) then TrimStart(s[1..]) else s
  }

  function TrimEnd(s: string): (r: string)
    ensures |r| <= |s| && r == s[..|r|]
    ensures forall k :: |r| <= k < |s| ==> IsSpace(s[k])
    ensures r == [] || !IsSpace(r[|r| - 1])
    decreases |s|
  {
    if |s| > 0 && IsSpace(s[|s| - 1]) then TrimEnd(s[..|s| - 1]) else s
  }

  /** `s.strip()`: drop leading and trailing whitespace. */
  function Strip(s: string): (r: string)
    ensures |r| <= |s|
    ensures r == [] || (!IsSpace(r[0]) && !IsSpace(r[|r| - 1]))
  {
    TrimEnd(TrimStart(s))
  }

  /** strip() keeps one contiguous piece of s and drops only whitespace
      around it. */
  lemma StripIsTrimmedInfix(s: string)
    ensures exists i :: 0 <= i && i + |Strip(s)| <= |s| && Strip(s) == s[i..i + |Strip(s)|]
                        && AllSpace(s[..i]) && AllSpace(s[i + |Strip(s)|..])
  {
    var t := TrimStart(s);
    var r := TrimEnd(t);
    var i := |s| - |t|;
    assert r == s[i..i + |r|];
    assert AllSpace(s[..i]);
    assert s[i + |r|..] == t[|r|..];
    assert AllSpace(s[i + |r|..]);
  }

  lemma SliceKeepsLower(s: string, a: int, b: int)
    requires IsLower(s) && 0 <= a <= b <= |s|
    ensures IsLower(s[a..b])
  {
    forall c | c in s[a..b] ensures c in s {
      var k :| 0 <= k < b - a && s[a..b][k] == c;
      assert s[a + k] == c;
    }
  }

  lemma StripKeepsLower(s: string)
    requires IsLower(s)
    ensures IsLower(Strip(s))
  {
    var t := TrimStart(s);
    SliceKeepsLower(s, |s| - |t|, |s|);
    SliceKeepsLower(t, 0, |TrimEnd(t)|);
  }

  /** strip() cannot create an occurrence. */
  lemma StripKeepsAbsence(s: string, p: string)
    requires !Contains(s, p)
    ensures !Contains(Strip(s), p)
  {
    var t := TrimStart(s);
    var r := TrimEnd(t);
    if Contains(r, p) {
      ContainsInPrefix(t, |r|, p);
      ContainsInSuffix(s, |s| - |t|, p);
    }
  }

  lemma StripIdempotent(s: string)
    ensures Strip(Strip(s)) == Strip(s)
  {
    var r := Strip(s);
    assert TrimStart(r) == r;
    assert TrimEnd(r) == r;
  }

  // ---------------------------------------------------------------- split(sep)

  /** `s.split(sep)` scanning left to right; `piece` is the part of the
      current piece already read. */
  function SplitFrom(s: string, sep: string, piece: string): (ps: seq<string>)
    requires |sep| > 0
    ensures |ps| >= 1
    decreases |s|
  {
    if |s| < |sep| then [piece + s]
    else if s[..|sep|] == sep then [piece] + SplitFrom(s[|sep|..], sep, [])
    else SplitFrom(s[1..], sep, piece + [s[0]])
  }

  function Split(s: string, sep: string): (ps: seq<string>)
    requires |sep| > 0
    ensures |ps| >= 1
  {
    SplitFrom(s, sep, [])
  }

  /** `sep.join(ps)`. */
  function Join(ps: seq<string>, sep: string): string
    requires |ps| >= 1
  {
    if |ps| == 1 then ps[0] else ps[0] + sep + Join(ps[1..], sep)
  }

  lemma {:induction false} JoinSplitFrom(s: string, sep: string, piece: string)
    requires |sep| > 0
    ensures Join(SplitFrom(s, sep, piece), sep) == piece + s
    decreases |s|
  {
    if |s| < |sep| {
    } else if s[..|sep|] == sep {
      JoinSplitFrom(s[|sep|..], sep, []);
      assert s == sep + s[|sep|..];
    } else {
      JoinSplitFrom(s[1..], sep, piece + [s[0]]);
      assert piece + [s[0]] + s[1..] == piece + s;
    }
  }

  /** No piece of piece + s already read contains the start of an occurrence. */
  ghost predicate NoOccurrenceBefore(t: string, sep: string, n: int) {
    forall i :: 0 <= i < n ==> !OccursAt(t, sep, i)
  }

  lemma NoOccurrenceIn(t: string, sep: string)
    requires |sep| > 0
    requires NoOccurrenceBefore(t, sep, |t|)
    ensures !Contains(t, sep)
  {
    ContainsIffOccurs(t, sep);
    forall i ensures !OccursAt(t, sep, i) {
      if 0 <= i < |t| {
        assert !OccursAt(t, sep, i);
      }
    }
  }

  /** Every piece split() produces is free of the separator. */
  lemma {:induction false} SplitFromPiecesFree(s: string, sep: string, piece: string)
    requires |sep| > 0
    requires NoOccurrenceBefore(piece + s, sep, |piece|)
    ensures forall k :: 0 <= k < |SplitFrom(s, sep, piece)| ==> !Contains(SplitFrom(s, sep, piece)[k], sep)
    decreases |s|
  {
    var t := piece + s;
    if |s| < |sep| {
      forall i | 0 <= i < |t| ensures !OccursAt(t, sep, i) {
        if i >= |piece| {
          assert i + |sep| > |t|;
        }
      }
      NoOccurrenceIn(t, sep);
    } else if s[..|sep|] == sep {
      forall i | 0 <= i < |piece| ensures !OccursAt(piece, sep, i) {
        if OccursAt(piece, sep, i) {
          assert t[i..i + |sep|] == piece[i..i + |sep|];
          assert OccursAt(t, sep, i);
        }
      }
      NoOccurrenceIn(piece, sep);
      assert s[|sep|..] == [] + s[|sep|..];
      SplitFromPiecesFree(s[|sep|..], sep, []);
    } else {
      var piece' := piece + [s[0]];
      assert piece' + s[1..] == t;
      forall i | 0 <= i < |piece'| ensures !OccursAt(t, sep, i) {
        if i == |piece| {
          assert t[i..i + |sep|] == s[..|sep|];
        }
      }
      SplitFromPiecesFree(s[1..], sep, piece');
    }
  }

  lemma {:induction false} JoinLast(ps: seq<string>, sep: string)
    requires |ps| >= 2
    ensures Join(ps, sep) == Join(ps[..|ps| - 1], sep) + sep + ps[|ps| - 1]
    decreases |ps|
  {
    if |ps| > 2 {
      JoinLast(ps[1..], sep);
      assert ps[1..][..|ps| - 2] == ps[..|ps| - 1][1..];
    }
  }

  /** `s.split(sep)[-1]`: what follows the last separator the scan consumed. */
  function LastPiece(s: string, sep: string): string
    requires |sep| > 0
  {
    var ps := Split(s, sep);
    ps[|ps| - 1]
  }

  lemma LastPieceFree(s: string, sep: string)
    requires |sep| > 0
    ensures !Contains(LastPiece(s, sep), sep)
  {
    SplitFromPiecesFree(s, sep, []);
  }

  /** The last piece contains no separator; it is the whole text when the
      separator does not occur, and otherwise follows an occurrence that ends
      the text before it. */
  lemma LastPieceSpec(s: string, sep: string)
    requires |sep| > 0
    ensures !Contains(LastPiece(s, sep), sep)
    ensures !Contains(s, sep) <==> LastPiece(s, sep) == s
    ensures Contains(s, sep) ==> exists pre :: s == pre + sep + LastPiece(s, sep)
  {
    var ps := Split(s, sep);
    var r := ps[|ps| - 1];
    LastPieceFree(s, sep);
    JoinSplitFrom(s, sep, []);
    assert Join(ps, sep) == s;
    if |ps| >= 2 {
      JoinLast(ps, sep);
      var pre := Join(ps[..|ps| - 1], sep);
      assert s == pre + sep + r;
      SepFollows(pre, sep, r);
    }
  }

  lemma SepFollows(pre: string, sep: string, r: string)
    ensures Contains(pre + sep + r, sep)
  {
    var s := pre + sep + r;
    ContainsIffOccurs(s, sep);
    assert s[|pre|..|pre| + |sep|] == sep;
    assert OccursAt(s, sep, |pre|);
  }

  // ---------------------------------------------------------------- split()

  /** `s.split()` with no argument: maximal runs of non-whitespace; `word` is
      the run being read. */
  function WordsFrom(s: string, word: string): seq<string>
    decreases |s|
  {
    if s == [] then (if word == [] then [] else [word])
    else if IsSpace(s[0]) then (if word == [] then [] else [word]) + WordsFrom(s[1..], [])
    else WordsFrom(s[1..], word + [s[0]])
  }

  function Words(s: string): seq<string> {
    WordsFrom(s, [])
  }

  function Concat(ws: seq<string>): string {
    if ws == [] then [] else ws[0] + Concat(ws[1..])
  }

  /** The characters of s that are not whitespace, in order. */
  function NonSpace(s: string): string {
    if s == [] then [] else (if IsSpace(s[0]) then [] else [s[0]]) + NonSpace(s[1..])
  }

  /** split() keeps every non-whitespace character in order, and each word is
      a non-empty run without whitespace. */
  lemma {:induction false} WordsFromSpec(s: string, word: string)
    requires forall c :: c in word ==> !IsSpace(c)
    ensures Concat(WordsFrom(s, word)) == word + NonSpace(s)
    ensures forall k :: 0 <= k < |WordsFrom(s, word)| ==>
              WordsFrom(s, word)[k] != [] && forall c :: c in WordsFrom(s, word)[k] ==> !IsSpace(c)
    decreases |s|
  {
    if s == [] {
      if word != [] {
        assert Concat([word]) == word + Concat([]);
      }
      assert word + NonSpace(s) == word;
    } else if IsSpace(s[0]) {
      WordsFromSpec(s[1..], []);
      var rest := WordsFrom(s[1..], []);
      assert NonSpace(s) == NonSpace(s[1..]);
      if word != [] {
        assert ([word] + rest)[1..] == rest;
        assert Concat([word] + rest) == word + Concat(rest);
      } else {
        assert [] + rest == rest;
      }
    } else {
      WordsFromSpec(s[1..], word + [s[0]]);
      assert word + [s[0]] + NonSpace(s[1..]) == word + NonSpace(s);
    }
  }

  lemma {:induction false} InConcat(ws: seq<string>, c: char)
    ensures c in Concat(ws) <==> exists k :: 0 <= k < |ws| && c in ws[k]
    decreases |ws|
  {
    if ws != [] {
      InConcat(ws[1..], c);
      if exists k :: 0 <= k < |ws| && c in ws[k] {
        var k :| 0 <= k < |ws| && c in ws[k];
        if k > 0 {
          assert ws[1..][k - 1] == ws[k];
        }
      }
      if exists k :: 0 <= k < |ws[1..]| && c in ws[1..][k] {
        var k :| 0 <= k < |ws[1..]| && c in ws[1..][k];
        assert ws[k + 1] == ws[1..][k];
      }
    }
  }

  lemma {:induction false} InNonSpace(s: string, c: char)
    requires !IsSpace(c)
    ensures c in NonSpace(s) <==> c in s
    decreases |s|
  {
    if s != [] {
      InNonSpace(s[1..], c);
      assert s == [s[0]] + s[1..];
    }
  }

  /** A non-whitespace character occurs in s exactly when it occurs in one of
      the words of s.split(). */
  lemma InWords(s: string, c: char)
    requires !IsSpace(c)
    ensures c in s <==> exists k :: 0 <= k < |Words(s)| && c in Words(s)[k]
  {
    WordsFromSpec(s, []);
    InConcat(Words(s), c);
    InNonSpace(s, c);
  }
}
