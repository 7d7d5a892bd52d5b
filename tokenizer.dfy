/**
 The tokenizer of the classifier (`load_word_list`): strip every character that
 is not a letter, whitespace or a colon, trim, split on whitespace, lowercase
 every piece and keep the pieces longer than two characters.

 Characters are classified as in ASCII: the letters `a`-`z` and `A`-`Z`, and
 the whitespace characters tab, line feed, vertical tab, form feed, carriage
 return and space. On ASCII text the byte length `s.len()` that
 `load_word_list` compares with 2 is the number of characters.
 */
module Tokenizer {

  predicate IsLowercase(c: char) { 'a' <= c <= 'z' }

  predicate IsUppercase(c: char) { 'A' <= c <= 'Z' }

  predicate IsWhitespace(c: char) { c == ' ' || '\t' <= c <= '\r' }

  function ToLower(c: char): (r: char)
    ensures !IsUppercase(r)
    ensures IsLowercase(r) <==> IsLowercase(c) || IsUppercase(c)
    ensures !IsUppercase(c) ==> r == c
  {
    if IsUppercase(c) then (c as int - 'A' as int + 'a' as int) as char else c
  }

  /** The characters that survive the cleaning step. */
  predicate Keep(c: char) {
    IsLowercase(c) || IsUppercase(c) || IsWhitespace(c) || c == ':'
  }

  /** A character that a finished token may hold. */
  predicate TokenChar(c: char) { IsLowercase(c) || c == ':' }

  /** A word as `split_whitespace` yields it: non-empty, no whitespace. */
  predicate IsWord(w: string) {
    |w| > 0 && forall i :: 0 <= i < |w| ==> !IsWhitespace(w[i])
  }

  /** A token as `load_word_list` returns it. */
  predicate IsToken(t: string) {
    |t| > 2 && forall i :: 0 <= i < |t| ==> TokenChar(t[i])
  }

  /** Step 1: remove every character that is not kept; nothing is put in its place. */
  function Clean(s: string): (r: string)
    ensures |r| <= |s|
    ensures forall i :: 0 <= i < |r| ==> Keep(r[i])
    ensures forall c :: c in r <==> c in s && Keep(c)
  {
    if s == [] then []
    else if Keep(s[0]) then [s[0]] + Clean(s[1..])
    else Clean(s[1..])
  }

  function TrimStart(s: string): (r: string)
    ensures |r| <= |s| && r == s[|s| - |r|..]
    ensures r == [] || !IsWhitespace(r[0])
    ensures forall i :: 0 <= i < |s| - |r| ==> IsWhitespace(s[i])
  {
    if s != [] && IsWhitespace(s[0]) then TrimStart(s[1..]) else s
  }

  function TrimEnd(s: string): (r: string)
    ensures |r| <= |s| && r == s[..|r|]
    ensures r == [] || !IsWhitespace(r[|r| - 1])
    ensures forall i :: |r| <= i < |s| ==> IsWhitespace(s[i])
  {
    if s != [] && IsWhitespace(s[|s| - 1]) then TrimEnd(s[..|s| - 1]) else s
  }

  /** Step 2a: `trim`, the removal of leading and trailing whitespace. */
  function Trim(s: string): (r: string)
    ensures |r| <= |s|
    ensures r == [] || (!IsWhitespace(r[0]) && !IsWhitespace(r[|r| - 1]))
    ensures forall c :: c in r ==> c in s
  {
    TrimEnd(TrimStart(s))
  }

  /** `r` is the part of `s` that starts at `i`, and every character of `s` outside it is whitespace. */
  predicate TrimmedAt(s: string, r: string, i: int) {
    0 <= i <= |s| - |r| && r == s[i..i + |r|]
    && (forall k :: 0 <= k < i ==> IsWhitespace(s[k]))
    && (forall k :: i + |r| <= k < |s| ==> IsWhitespace(s[k]))
  }

  /** The length of the run of non-whitespace characters that starts `s`. */
  function WordLength(s: string): (n: nat)
    ensures n <= |s|
    ensures forall i :: 0 <= i < n ==> !IsWhitespace(s[i])
    ensures n < |s| ==> IsWhitespace(s[n])
  {
    if s == [] || IsWhitespace(s[0]) then 0 else 1 + WordLength(s[1..])
  }

  /** Step 2b: `split_whitespace`, the maximal runs of non-whitespace characters, in order. */
  function SplitWhitespace(s: string): (ws: seq<string>)
    ensures forall i :: 0 <= i < |ws| ==> IsWord(ws[i])
    ensures forall i, c :: 0 <= i < |ws| && c in ws[i] ==> c in s
    decreases |s|
  {
    if s == [] then []
    else if IsWhitespace(s[0]) then
      assert forall c :: c in s[1..] ==> c in s;
      SplitWhitespace(s[1..])
    else
      var n := WordLength(s);
      assert forall c :: c in s[..n] ==> c in s;
      assert forall c :: c in s[n..] ==> c in s;
      [s[..n]] + SplitWhitespace(s[n..])
  }

  /** The pieces written one after the other. */
  function Concat(ws: seq<string>): string
  {
    if ws == [] then [] else ws[0] + Concat(ws[1..])
  }

  /** The text with every whitespace character removed. */
  function DropWhitespace(s: string): string
  {
    if s == [] then []
    else if IsWhitespace(s[0]) then DropWhitespace(s[1..])
    else [s[0]] + DropWhitespace(s[1..])
  }

  /** Step 3: `to_lowercase` on one piece. */
  function Lowercase(w: string): (r: string)
    ensures |r| == |w|
    ensures forall i :: 0 <= i < |r| ==> !IsUppercase(r[i])
    ensures forall i :: 0 <= i < |r| ==> (IsLowercase(r[i]) <==> IsLowercase(w[i]) || IsUppercase(w[i]))
    ensures forall i :: 0 <= i < |r| ==> (r[i] == ':' <==> w[i] == ':')
    ensures forall i :: 0 <= i < |r| ==> (IsWhitespace(r[i]) <==> IsWhitespace(w[i]))
  {
    seq(|w|, i requires 0 <= i < |w| => ToLower(w[i]))
  }

  /** Step 3 over all the pieces, in order. */
  function LowercaseAll(ws: seq<string>): seq<string>
  {
    seq(|ws|, i requires 0 <= i < |ws| => Lowercase(ws[i]))
  }

  /** Step 4: keep the pieces whose length is greater than 2, in order. */
  function LongerThanTwo(ws: seq<string>): (r: seq<string>)
    ensures |r| <= |ws|
    ensures forall i :: 0 <= i < |r| ==> |r[i]| > 2
    ensures forall w :: w in r <==> w in ws && |w| > 2
  {
    if ws == [] then []
    else if |ws[0]| > 2 then [ws[0]] + LongerThanTwo(ws[1..])
    else LongerThanTwo(ws[1..])
  }

  /** `load_word_list`: total on every input. */
  function LoadWordList(msg: string): (ts: seq<string>)
  {
    LongerThanTwo(LowercaseAll(SplitWhitespace(Trim(Clean(msg)))))
  }

  /** The words joined by single spaces. */
  function JoinSpaces(ws: seq<string>): string
  {
    if ws == [] then []
    else if |ws| == 1 then ws[0]
    else ws[0] + " " + JoinSpaces(ws[1..])
  }

  // ---------------------------------------------------------------------------
  // Lemmas
  // ---------------------------------------------------------------------------

  /** Every token is longer than two characters and made only of lowercase letters and colons. */
  lemma LoadWordListTokens(msg: string)
    ensures forall i :: 0 <= i < |LoadWordList(msg)| ==> IsToken(LoadWordList(msg)[i])
  {
    var cleaned := Trim(Clean(msg));
    var ws := SplitWhitespace(cleaned);
    PiecesOfCleanText(cleaned);
    LowercaseCleanPieces(ws);
    LongPiecesAreTokens(LowercaseAll(ws));
  }

  lemma LowercaseCleanPieces(ws: seq<string>)
    requires forall i :: 0 <= i < |ws| ==> CleanPiece(ws[i])
    ensures forall i :: 0 <= i < |LowercaseAll(ws)| ==> TokenChars(LowercaseAll(ws)[i])
  {
    forall i | 0 <= i < |ws| ensures TokenChars(LowercaseAll(ws)[i]) {
      LowercaseCleanPiece(ws[i]);
    }
  }

  lemma LongPiecesAreTokens(ws: seq<string>)
    requires forall i :: 0 <= i < |ws| ==> TokenChars(ws[i])
    ensures forall i :: 0 <= i < |LongerThanTwo(ws)| ==> IsToken(LongerThanTwo(ws)[i])
  {
    var ts := LongerThanTwo(ws);
    forall i | 0 <= i < |ts| ensures IsToken(ts[i]) {
      assert ts[i] in ws;
    }
  }

  /** Kept characters other than whitespace only. */
  predicate CleanPiece(w: string) {
    forall i :: 0 <= i < |w| ==> Keep(w[i]) && !IsWhitespace(w[i])
  }

  /** Lowercase letters and colons only. */
  predicate TokenChars(w: string) {
    forall i :: 0 <= i < |w| ==> TokenChar(w[i])
  }

  /** The pieces of a cleaned text hold kept characters other than whitespace only. */
  lemma PiecesOfCleanText(s: string)
    requires forall c :: c in s ==> Keep(c)
    ensures forall i :: 0 <= i < |SplitWhitespace(s)| ==> CleanPiece(SplitWhitespace(s)[i])
  {
    var ws := SplitWhitespace(s);
    forall i | 0 <= i < |ws| ensures CleanPiece(ws[i]) {
      forall j | 0 <= j < |ws[i]| ensures Keep(ws[i][j]) && !IsWhitespace(ws[i][j]) {
        assert ws[i][j] in ws[i];
      }
    }
  }

  /** Lowercasing such a piece leaves lowercase letters and colons only. */
  lemma LowercaseCleanPiece(w: string)
    requires CleanPiece(w)
    ensures TokenChars(Lowercase(w))
  {
  }

  /** Leading and trailing whitespace never changes the split. */
  lemma {:induction false} SplitIgnoresLeadingWhitespace(s: string, k: nat)
    requires k <= |s|
    requires forall i :: 0 <= i < k ==> IsWhitespace(s[i])
    ensures SplitWhitespace(s[k..]) == SplitWhitespace(s)
  {
    if k > 0 {
      assert s[1..][k - 1..] == s[k..];
      SplitIgnoresLeadingWhitespace(s[1..], k - 1);
    }
  }

  lemma {:induction false} SplitIgnoresTrailingWhitespace(s: string, k: nat)
    requires k <= |s|
    requires forall i :: k <= i < |s| ==> IsWhitespace(s[i])
    ensures SplitWhitespace(s[..k]) == SplitWhitespace(s)
    decreases |s|
  {
    if s == [] {
    } else if IsWhitespace(s[0]) {
      if k == 0 {
        SplitAllWhitespace(s);
      } else {
        assert s[..k][1..] == s[1..][..k - 1];
        SplitIgnoresTrailingWhitespace(s[1..], k - 1);
      }
    } else {
      assert k > 0;
      var n := WordLength(s);
      WordLengthPrefix(s, k);
      assert WordLength(s[..k]) == n;
      if n == k {
        assert s[..k][n..] == [];
        SplitAllWhitespace(s[n..]);
      } else {
        assert s[..k][n..] == s[n..][..k - n];
        SplitIgnoresTrailingWhitespace(s[n..], k - n);
      }
      assert s[..k][..n] == s[..n];
    }
  }

  lemma {:induction false} SplitAllWhitespace(s: string)
    requires forall i :: 0 <= i < |s| ==> IsWhitespace(s[i])
    ensures SplitWhitespace(s) == []
    decreases |s|
  {
    if s != [] {
      SplitAllWhitespace(s[1..]);
    }
  }

  lemma {:induction false} WordLengthPrefix(s: string, k: nat)
    requires 0 < k <= |s| && !IsWhitespace(s[0])
    requires forall i :: k <= i < |s| ==> IsWhitespace(s[i])
    ensures WordLength(s) <= k
    ensures WordLength(s[..k]) == WordLength(s)
    decreases |s|
  {
    if |s| > 1 && k > 1 && !IsWhitespace(s[1]) {
      assert s[..k][1..] == s[1..][..k - 1];
      WordLengthPrefix(s[1..], k - 1);
    }
  }

  /** `trim` takes off leading and trailing whitespace and nothing else. */
  lemma TrimKeepsMiddle(s: string)
    ensures exists i :: TrimmedAt(s, Trim(s), i)
  {
    var t := TrimStart(s);
    TrimmedInside(s, t, TrimEnd(t));
    assert TrimmedAt(s, Trim(s), |s| - |t|);
  }

  /** A suffix after whitespace, cut before whitespace, is a trimmed part of the text. */
  lemma TrimmedInside(s: string, t: string, r: string)
    requires |t| <= |s| && t == s[|s| - |t|..]
    requires forall k :: 0 <= k < |s| - |t| ==> IsWhitespace(s[k])
    requires |r| <= |t| && r == t[..|r|]
    requires forall k :: |r| <= k < |t| ==> IsWhitespace(t[k])
    ensures TrimmedAt(s, r, |s| - |t|)
  {
    var i := |s| - |t|;
    assert r == s[i..i + |r|];
    forall k | i + |r| <= k < |s| ensures IsWhitespace(s[k]) {
      assert s[k] == t[k - i];
    }
  }

  /** `split_whitespace` loses no character but whitespace: the pieces, written out in order, are the text without its whitespace. */
  lemma {:induction false} SplitKeepsCharacters(s: string)
    ensures Concat(SplitWhitespace(s)) == DropWhitespace(s)
    decreases |s|
  {
    if s != [] {
      if IsWhitespace(s[0]) {
        SplitKeepsCharacters(s[1..]);
      } else {
        var n := WordLength(s);
        var rest := SplitWhitespace(s[n..]);
        SplitKeepsCharacters(s[n..]);
        assert ([s[..n]] + rest)[1..] == rest;
        assert s == s[..n] + s[n..];
        DropWhitespaceAppend(s[..n], s[n..]);
        DropWhitespaceOfWord(s[..n]);
      }
    }
  }

  lemma {:induction false} DropWhitespaceAppend(a: string, b: string)
    ensures DropWhitespace(a + b) == DropWhitespace(a) + DropWhitespace(b)
  {
    if a == [] {
      assert a + b == b;
    } else {
      assert (a + b)[0] == a[0] && (a + b)[1..] == a[1..] + b;
      DropWhitespaceAppend(a[1..], b);
    }
  }

  lemma {:induction false} DropWhitespaceOfWord(w: string)
    requires forall i :: 0 <= i < |w| ==> !IsWhitespace(w[i])
    ensures DropWhitespace(w) == w
  {
    if w != [] {
      DropWhitespaceOfWord(w[1..]);
    }
  }

  /** `trim` before `split_whitespace` makes no difference. */
  lemma SplitIgnoresTrim(s: string)
    ensures SplitWhitespace(Trim(s)) == SplitWhitespace(s)
  {
    var t := TrimStart(s);
    SplitIgnoresLeadingWhitespace(s, |s| - |t|);
    SplitIgnoresTrailingWhitespace(t, |TrimEnd(t)|);
  }

  lemma {:induction false} WordLengthOfWord(w: string, rest: string)
    requires IsWord(w)
    requires rest == [] || IsWhitespace(rest[0])
    ensures WordLength(w + rest) == |w|
    decreases |w|
  {
    if |w| > 1 {
      assert (w + rest)[1..] == w[1..] + rest;
      WordLengthOfWord(w[1..], rest);
    } else {
      assert (w + rest)[1..] == rest;
    }
  }

  /** Joining words with single spaces and splitting again gives back the words. */
  lemma {:induction false} SplitJoinSpaces(ws: seq<string>)
    requires forall i :: 0 <= i < |ws| ==> IsWord(ws[i])
    ensures SplitWhitespace(JoinSpaces(ws)) == ws
  {
    if ws == [] {
    } else if |ws| == 1 {
      var w := ws[0];
      WordLengthOfWord(w, []);
      assert w + [] == w;
      assert w[|w|..] == [];
      assert w[..|w|] == w;
    } else {
      var w, rest := ws[0], " " + JoinSpaces(ws[1..]);
      var s := w + rest;
      assert JoinSpaces(ws) == s;
      WordLengthOfWord(w, rest);
      assert s[..|w|] == w;
      assert s[|w|..] == rest;
      assert rest[1..] == JoinSpaces(ws[1..]);
      SplitJoinSpaces(ws[1..]);
    }
  }

  lemma {:induction false} JoinSpacesChars(ws: seq<string>)
    requires forall i :: 0 <= i < |ws| ==> IsToken(ws[i])
    ensures forall c :: c in JoinSpaces(ws) ==> TokenChar(c) || c == ' '
    ensures JoinSpaces(ws) == [] || (!IsWhitespace(JoinSpaces(ws)[0]) && !IsWhitespace(JoinSpaces(ws)[|JoinSpaces(ws)| - 1]))
  {
    if |ws| > 1 {
      JoinSpacesChars(ws[1..]);
      assert ws[0][0] in ws[0];
    } else if |ws| == 1 {
      assert ws[0][0] in ws[0];
      assert ws[0][|ws[0]| - 1] in ws[0];
    }
  }

  lemma {:induction false} CleanKeepsKept(s: string)
    requires forall i :: 0 <= i < |s| ==> Keep(s[i])
    ensures Clean(s) == s
  {
    if s != [] {
      CleanKeepsKept(s[1..]);
    }
  }

  lemma TrimKeepsTrimmed(s: string)
    requires s == [] || (!IsWhitespace(s[0]) && !IsWhitespace(s[|s| - 1]))
    ensures Trim(s) == s
  {
  }

  lemma {:induction false} LongerThanTwoKeepsLong(ws: seq<string>)
    requires forall i :: 0 <= i < |ws| ==> |ws[i]| > 2
    ensures LongerThanTwo(ws) == ws
  {
    if ws != [] {
      LongerThanTwoKeepsLong(ws[1..]);
    }
  }

  /** Text made of token characters and spaces, with no space at either end, survives cleaning and trimming. */
  lemma SpacedTokenCharsSurviveCleaning(s: string)
    requires forall c :: c in s ==> TokenChar(c) || c == ' '
    requires s == [] || (!IsWhitespace(s[0]) && !IsWhitespace(s[|s| - 1]))
    ensures Trim(Clean(s)) == s
  {
    forall i | 0 <= i < |s| ensures Keep(s[i]) {
      assert s[i] in s;
    }
    CleanKeepsKept(s);
    TrimKeepsTrimmed(s);
  }

  lemma JoinedTokensSurviveCleaning(ts: seq<string>)
    requires forall i :: 0 <= i < |ts| ==> IsToken(ts[i])
    ensures Trim(Clean(JoinSpaces(ts))) == JoinSpaces(ts)
  {
    JoinSpacesChars(ts);
    SpacedTokenCharsSurviveCleaning(JoinSpaces(ts));
  }

  lemma {:induction false} LowercaseAllKeepsTokens(ts: seq<string>)
    requires forall i :: 0 <= i < |ts| ==> IsToken(ts[i])
    ensures LowercaseAll(ts) == ts
  {
    var lower := LowercaseAll(ts);
    forall i | 0 <= i < |ts| ensures lower[i] == ts[i] {
      var w := ts[i];
      assert IsToken(w);
      assert forall j :: 0 <= j < |w| ==> Lowercase(w)[j] == w[j];
    }
  }

  /** Tokenizing the space-joined tokens gives back the tokens. */
  lemma LoadWordListOfJoinedTokens(ts: seq<string>)
    requires forall i :: 0 <= i < |ts| ==> IsToken(ts[i])
    ensures LoadWordList(JoinSpaces(ts)) == ts
  {
    var s := JoinSpaces(ts);
    JoinedTokensSurviveCleaning(ts);
    assert Trim(Clean(s)) == s;
    TokensAreWords(ts);
    SplitJoinSpaces(ts);
    assert SplitWhitespace(Trim(Clean(s))) == ts;
    LowercaseAllKeepsTokens(ts);
    LongerThanTwoKeepsLong(ts);
  }

  lemma TokensAreWords(ts: seq<string>)
    requires forall i :: 0 <= i < |ts| ==> IsToken(ts[i])
    ensures forall i :: 0 <= i < |ts| ==> IsWord(ts[i])
  {
    forall i | 0 <= i < |ts| ensures IsWord(ts[i]) {
      assert IsToken(ts[i]);
    }
  }

  /** Tokenizing the space-joined tokens of a message gives the same tokens again. */
  lemma LoadWordListIdempotent(msg: string)
    ensures LoadWordList(JoinSpaces(LoadWordList(msg))) == LoadWordList(msg)
  {
    LoadWordListTokens(msg);
    LoadWordListOfJoinedTokens(LoadWordList(msg));
  }

  /** A message without letters and colons has no tokens. */
  lemma NoLettersNoTokens(msg: string)
    requires forall i :: 0 <= i < |msg| ==> !IsLowercase(msg[i]) && !IsUppercase(msg[i]) && msg[i] != ':'
    ensures LoadWordList(msg) == []
  {
    var c := Clean(msg);
    forall i | 0 <= i < |c| ensures IsWhitespace(c[i]) {
      assert c[i] in c;
    }
    SplitIgnoresTrim(c);
    SplitAllWhitespace(c);
  }

  /** Cleaning works character by character. */
  lemma {:induction false} CleanAppend(a: string, b: string)
    ensures Clean(a + b) == Clean(a) + Clean(b)
  {
    if a == [] {
      assert a + b == b;
    } else {
      assert (a + b)[0] == a[0] && (a + b)[1..] == a[1..] + b;
      CleanAppend(a[1..], b);
    }
  }

  /** A whitespace character always separates words: splitting at one splits the words. */
  lemma {:induction false} SplitAtWhitespace(p: string, c: char, q: string)
    requires IsWhitespace(c)
    ensures SplitWhitespace(p + [c] + q) == SplitWhitespace(p) + SplitWhitespace(q)
    decreases |p|
  {
    var s := p + [c] + q;
    if p == [] {
      assert s[1..] == q;
    } else if IsWhitespace(p[0]) {
      assert s[1..] == p[1..] + [c] + q;
      SplitAtWhitespace(p[1..], c, q);
    } else {
      var m := WordLength(p);
      WordLengthSplit(p, [c] + q);
      assert s == p + ([c] + q);
      CutBeforeWhitespace(p, c, q, m);
      SplitAtWhitespace(p[m..], c, q);
    }
  }

  lemma CutBeforeWhitespace(p: string, c: char, q: string, m: nat)
    requires m <= |p|
    ensures (p + [c] + q)[..m] == p[..m]
    ensures (p + [c] + q)[m..] == p[m..] + [c] + q
  {
  }

  lemma {:induction false} WordLengthSplit(p: string, rest: string)
    requires p != [] && !IsWhitespace(p[0])
    requires rest == [] || IsWhitespace(rest[0])
    ensures WordLength(p + rest) == WordLength(p)
    decreases |p|
  {
    assert (p + rest)[1..] == p[1..] + rest;
    if |p| > 1 && !IsWhitespace(p[1]) {
      WordLengthSplit(p[1..], rest);
    }
  }

  lemma LowercaseAllAppend(a: seq<string>, b: seq<string>)
    ensures LowercaseAll(a + b) == LowercaseAll(a) + LowercaseAll(b)
  {
  }

  lemma {:induction false} LongerThanTwoAppend(a: seq<string>, b: seq<string>)
    ensures LongerThanTwo(a + b) == LongerThanTwo(a) + LongerThanTwo(b)
  {
    if a == [] {
      assert a + b == b;
    } else {
      assert (a + b)[0] == a[0] && (a + b)[1..] == a[1..] + b;
      LongerThanTwoAppend(a[1..], b);
    }
  }

  lemma CleanAroundWhitespace(x: string, c: char, y: string)
    requires IsWhitespace(c)
    ensures Clean(x + [c] + y) == Clean(x) + [c] + Clean(y)
  {
    CleanAppend(x + [c], y);
    CleanAppend(x, [c]);
    assert Clean([c]) == [c] by {
      assert [c][1..] == [];
    }
  }

  lemma PiecesAroundWhitespace(x: string, c: char, y: string)
    requires IsWhitespace(c)
    ensures SplitWhitespace(Trim(Clean(x + [c] + y))) == SplitWhitespace(Trim(Clean(x))) + SplitWhitespace(Trim(Clean(y)))
  {
    var cx, cy := Clean(x), Clean(y);
    CleanAroundWhitespace(x, c, y);
    SplitIgnoresTrim(cx + [c] + cy);
    SplitAtWhitespace(cx, c, cy);
    SplitIgnoresTrim(cx);
    SplitIgnoresTrim(cy);
  }

  /** Tokenizing two pieces joined by a whitespace character gives the tokens of each, in order. */
  lemma LoadWordListAppend(x: string, c: char, y: string)
    requires IsWhitespace(c)
    ensures LoadWordList(x + [c] + y) == LoadWordList(x) + LoadWordList(y)
  {
    var px, py := SplitWhitespace(Trim(Clean(x))), SplitWhitespace(Trim(Clean(y)));
    PiecesAroundWhitespace(x, c, y);
    LowercaseAllAppend(px, py);
    LongerThanTwoAppend(LowercaseAll(px), LowercaseAll(py));
  }

  /** Letters and colons only. */
  predicate IsPlainWord(w: string) {
    w != [] && forall i :: 0 <= i < |w| ==> IsLowercase(w[i]) || IsUppercase(w[i]) || w[i] == ':'
  }

  lemma {:induction false} CleanDropsAll(s: string)
    requires forall i :: 0 <= i < |s| ==> !Keep(s[i])
    ensures Clean(s) == []
  {
    if s != [] {
      CleanDropsAll(s[1..]);
    }
  }

  lemma SplitPlainWord(w: string)
    requires IsPlainWord(w)
    ensures SplitWhitespace(w) == [w]
  {
    assert IsWord(w);
    SplitJoinSpaces([w]);
    assert JoinSpaces([w]) == w;
  }

  lemma FilterOne(w: string)
    ensures LongerThanTwo([w]) == if |w| > 2 then [w] else []
  {
    assert [w][1..] == [];
  }

  /** A piece that cleans to a plain word yields that word, lowercased, when it is longer than two characters. */
  lemma CleansToWord(msg: string, w: string)
    requires Clean(msg) == w && IsPlainWord(w)
    ensures LoadWordList(msg) == if |w| > 2 then [Lowercase(w)] else []
  {
    PlainWordPieces(w);
  }

  lemma PlainWordPieces(w: string)
    requires IsPlainWord(w)
    ensures LongerThanTwo(LowercaseAll(SplitWhitespace(Trim(w)))) == if |w| > 2 then [Lowercase(w)] else []
  {
    TrimKeepsTrimmed(w);
    SplitPlainWord(w);
    assert LowercaseAll([w]) == [Lowercase(w)] by {
      assert |LowercaseAll([w])| == 1 && LowercaseAll([w])[0] == Lowercase(w);
    }
    FilterOne(Lowercase(w));
  }

  /** A plain word followed by characters that are all removed. */
  lemma WordWithJunk(w: string, junk: string)
    requires IsPlainWord(w)
    requires forall i :: 0 <= i < |junk| ==> !Keep(junk[i])
    ensures LoadWordList(w + junk) == if |w| > 2 then [Lowercase(w)] else []
  {
    CleanAppend(w, junk);
    CleanKeepsKept(w);
    CleanDropsAll(junk);
    assert w + [] == w;
    CleansToWord(w + junk, w);
  }
}
