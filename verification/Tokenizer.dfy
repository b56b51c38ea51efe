/**
The tokenizer of the knowledge search (src/knowledge_core.py): the matches of
`[A-Za-z0-9_]+|[\u4e00-\u9fff]` from left to right, in lower case. A run of word characters is
one token, as long as it can be; a CJK character is a token by itself; the rest separates.
*/
module Tokenizers {
  import opened Texts

  predicate IsWord(c: char) {
    'A' <= c <= 'Z' || 'a' <= c <= 'z' || '0' <= c <= '9' || c == '_'
  }

  predicate IsCjk(c: char) {
    '\U{4e00}' <= c <= '\U{9fff}'
  }

  predicate IsTokenChar(c: char) {
    IsWord(c) || IsCjk(c)
  }

  /** `str.lower` on the characters a token can hold. */
  function LowerChar(c: char): char {
    if 'A' <= c <= 'Z' then (c as int + 32) as char else c
  }

  function Lower(s: string): (r: string)
    ensures |r| == |s| && forall i :: 0 <= i < |s| ==> r[i] == LowerChar(s[i])
  {
    seq(|s|, i requires 0 <= i < |s| => LowerChar(s[i]))
  }

  /** The length of the run of word characters at the front. */
  function WordLength(s: string): (n: nat)
    ensures n <= |s|
    ensures forall i :: 0 <= i < n ==> IsWord(s[i])
    ensures n < |s| ==> !IsWord(s[n])
  {
    if s == "" || !IsWord(s[0]) then 0 else 1 + WordLength(s[1..])
  }

  /** The length of what the scan takes next: a maximal word, or one character. */
  function PieceLength(s: string): (n: nat)
    requires s != ""
    ensures 0 < n <= |s|
  {
    if IsWord(s[0]) then WordLength(s) else 1
  }

  /** A piece is a token, lowered, or separates. */
  function PieceTokens(piece: string): seq<string>
    requires piece != ""
  {
    if IsTokenChar(piece[0]) then [Lower(piece)] else []
  }

  /** `findall`, lowered. */
  function Tokenize(text: string): seq<string>
    decreases |text|
  {
    if text == "" then []
    else PieceTokens(text[..PieceLength(text)]) + Tokenize(text[PieceLength(text)..])
  }

  /** A token of either kind. */
  predicate IsToken(t: string) {
    t != "" && ((forall i :: 0 <= i < |t| ==> IsWord(t[i]) && LowerChar(t[i]) == t[i]) || (|t| == 1 && IsCjk(t[0])))
  }

  function TokenChars(text: string): string {
    if text == "" then ""
    else if IsTokenChar(text[0]) then [LowerChar(text[0])] + TokenChars(text[1..])
    else TokenChars(text[1..])
  }

  lemma {:induction false} TokenCharsConcat(a: string, b: string)
    ensures TokenChars(a + b) == TokenChars(a) + TokenChars(b)
  {
    if a == "" {
      assert a + b == b;
    } else {
      assert (a + b)[1..] == a[1..] + b;
      TokenCharsConcat(a[1..], b);
    }
  }

  lemma {:induction false} WordIsItsChars(w: string)
    requires forall i :: 0 <= i < |w| ==> IsTokenChar(w[i])
    ensures TokenChars(w) == Lower(w)
  {
    if w != "" {
      WordIsItsChars(w[1..]);
      assert Lower(w) == [LowerChar(w[0])] + Lower(w[1..]);
    }
  }

  /** No token character is lost, added, moved or duplicated, and every token is well formed. */
  lemma {:induction false} TokensCoverText(text: string)
    ensures Flatten(Tokenize(text)) == TokenChars(text)
    ensures forall i :: 0 <= i < |Tokenize(text)| ==> IsToken(Tokenize(text)[i])
    decreases |text|
  {
    hide Tokenize, PieceTokens, WordLength;
    if text == "" {
      TokenizeNothing();
    } else {
      var n := PieceLength(text);
      var piece, rest := text[..n], text[n..];
      TokensCoverText(rest);
      PieceCovers(text);
      FirstPiece(text);
      FlattenConcat(PieceTokens(piece), Tokenize(rest));
      assert text == piece + rest;
      TokenCharsConcat(piece, rest);
      var tokens := Tokenize(text);
      forall i | 0 <= i < |tokens|
        ensures IsToken(tokens[i])
      {
        if i >= |PieceTokens(piece)| {
          assert tokens[i] == Tokenize(rest)[i - |PieceTokens(piece)|];
        }
      }
    }
  }

  lemma PieceCovers(text: string)
    requires text != ""
    ensures var piece := text[..PieceLength(text)];
      && Flatten(PieceTokens(piece)) == TokenChars(piece)
      && forall i :: 0 <= i < |PieceTokens(piece)| ==> IsToken(PieceTokens(piece)[i])
  {
    var piece := text[..PieceLength(text)];
    if IsTokenChar(piece[0]) {
      WordIsItsChars(piece);
      TokenIsWellFormed(piece);
    } else {
      assert piece[1..] == "";
    }
  }

  lemma TokenIsWellFormed(w: string)
    requires w != "" && ((forall i :: 0 <= i < |w| ==> IsWord(w[i])) || (|w| == 1 && IsCjk(w[0])))
    ensures IsToken(Lower(w))
  {
  }

  /** Two texts can be tokenized apart unless the cut runs through a word. */
  predicate CutsWord(a: string, b: string) {
    a != "" && b != "" && IsWord(a[|a| - 1]) && IsWord(b[0])
  }

  lemma {:induction false} WordLengthOfConcat(a: string, b: string)
    requires a != ""
    ensures WordLength(a) < |a| ==> WordLength(a + b) == WordLength(a)
    ensures WordLength(a) == |a| ==> WordLength(a + b) == |a| + WordLength(b)
  {
    assert (a + b)[1..] == a[1..] + b;
    if IsWord(a[0]) {
      if |a| == 1 {
        assert a[1..] + b == b;
      } else {
        WordLengthOfConcat(a[1..], b);
      }
    }
  }

  lemma FirstPiece(text: string)
    requires text != ""
    ensures Tokenize(text) == PieceTokens(text[..PieceLength(text)]) + Tokenize(text[PieceLength(text)..])
  {
  }

  lemma TokenizeNothing()
    ensures Tokenize("") == []
  {
  }

  /** The first piece of a concatenation is the first piece of its front, unless the front is one word that goes on. */
  lemma FirstPieceOfConcat(a: string, b: string)
    requires a != "" && (PieceLength(a) < |a| || !CutsWord(a, b))
    ensures var n := PieceLength(a);
      && PieceLength(a + b) == n && (a + b)[..n] == a[..n] && (a + b)[n..] == a[n..] + b
      && (a[n..] != "" ==> (CutsWord(a[n..], b) <==> CutsWord(a, b)))
  {
    hide WordLength, IsWord;
    WordLengthOfConcat(a, b);
    assert WordLength(b) > 0 ==> IsWord(b[0]);
    assert (a + b)[0] == a[0];
    var n := PieceLength(a);
    assert a[n..] != "" ==> a[n..][|a[n..]| - 1] == a[|a| - 1];
  }

  /** Where no word is cut, the tokens of a concatenation are the tokens of its parts. */
  lemma {:induction false} TokenizeConcat(a: string, b: string)
    requires !CutsWord(a, b)
    ensures Tokenize(a + b) == Tokenize(a) + Tokenize(b)
    decreases |a|
  {
    hide Tokenize, PieceTokens, WordLength;
    if a == "" {
      TokenizeNothing();
      assert a + b == b;
    } else {
      FirstPieceOfConcat(a, b);
      FirstPiece(a);
      FirstPiece(a + b);
      TokenizeConcat(a[PieceLength(a)..], b);
    }
  }

  /** A cut word counts twice: cut apart, the two parts have one token more than the whole. */
  lemma {:induction false} CutWordCountsTwice(a: string, b: string)
    requires CutsWord(a, b)
    ensures |Tokenize(a + b)| == |Tokenize(a)| + |Tokenize(b)| - 1
    decreases |a|
  {
    hide Tokenize, WordLength;
    var n := PieceLength(a);
    if n < |a| {
      FirstPieceOfConcat(a, b);
      FirstPiece(a);
      FirstPiece(a + b);
      CutWordCountsTwice(a[n..], b);
    } else {
      WordGoesOn(a, b);
    }
  }

  /** The front is one word that goes on in the back. */
  lemma WordGoesOn(a: string, b: string)
    requires CutsWord(a, b) && PieceLength(a) == |a|
    ensures |Tokenize(a)| == 1 && |Tokenize(a + b)| == |Tokenize(b)|
  {
    hide Tokenize;
    WordLengthOfConcat(a, b);
    var m := WordLength(b);
    assert IsWord(a[0]) && (a + b)[0] == a[0];
    assert PieceLength(a + b) == |a| + m && PieceLength(b) == m;
    assert (a + b)[|a| + m..] == b[m..];
    assert a[|a|..] == "";
    FirstPiece(a);
    FirstPiece(b);
    FirstPiece(a + b);
    TokenizeNothing();
  }

  /** Two texts can be tokenized apart exactly when no word is cut. */
  lemma TokenizeConcatExactly(a: string, b: string)
    ensures Tokenize(a + b) == Tokenize(a) + Tokenize(b) <==> !CutsWord(a, b)
  {
    hide Tokenize;
    if CutsWord(a, b) {
      CutWordCountsTwice(a, b);
    } else {
      TokenizeConcat(a, b);
    }
  }

  /** The three cases of the pattern; with TokenizeConcatExactly they give the tokens of every text. */
  lemma TokenPattern(w: string)
    requires w != ""
    ensures (forall i :: 0 <= i < |w| ==> 'A' <= w[i] <= 'Z' || 'a' <= w[i] <= 'z' || '0' <= w[i] <= '9' || w[i] == '_')
      ==> |Tokenize(w)| == 1 && |Tokenize(w)[0]| == |w| && forall i :: 0 <= i < |w| ==>
            Tokenize(w)[0][i] == if 'A' <= w[i] <= 'Z' then w[i] - 'A' + 'a' else w[i]
    ensures |w| == 1 && '\U{4e00}' <= w[0] <= '\U{9fff}' ==> Tokenize(w) == [w]
    ensures |w| == 1 && !IsTokenChar(w[0]) ==> Tokenize(w) == []
    ensures forall c: char :: IsTokenChar(c) <==>
      'A' <= c <= 'Z' || 'a' <= c <= 'z' || '0' <= c <= '9' || c == '_' || '\U{4e00}' <= c <= '\U{9fff}'
  {
    hide Tokenize;
    FirstPiece(w);
    TokenizeNothing();
    var n := PieceLength(w);
    assert w[..|w|] == w && w[|w|..] == "";
    assert |w| == 1 && IsCjk(w[0]) ==> Lower(w) == w;
    if forall i :: 0 <= i < |w| ==> 'A' <= w[i] <= 'Z' || 'a' <= w[i] <= 'z' || '0' <= w[i] <= '9' || w[i] == '_' {
      assert forall i :: 0 <= i < |w| ==> IsWord(w[i]);
      assert n == |w|;
    }
  }
}
