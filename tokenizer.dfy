/**
 * `tokenize` (emlisp/parser.py): pad every parenthesis with spaces, then split on runs of
 * white space.
 */
module Tokenizer {
  import opened Values

  /** `s.replace(c, with)` for a one-character pattern. */
  function Replace(s: string, c: char, with: string): string {
    if s == [] then [] else (if s[0] == c then with else [s[0]]) + Replace(s[1..], c, with)
  }

  /** The two replacements `tokenize` makes before splitting. */
  function Pad(s: string): string {
    Replace(Replace(s, '(', " ( "), ')', " ) ")
  }

  /** The length of the run of non-space characters that `s` starts with. */
  function WordLen(s: string): (n: nat)
    ensures n <= |s|
    ensures forall i :: 0 <= i < n ==> !IsSpace(s[i])
    ensures n < |s| ==> IsSpace(s[n])
  {
    if s == [] || IsSpace(s[0]) then 0 else 1 + WordLen(s[1..])
  }

  /** `s.split()`: the maximal runs of non-space characters, in order. */
  function Split(s: string): seq<string>
    decreases |s|
  {
    if s == [] then []
    else if IsSpace(s[0]) then Split(s[1..])
    else
      var n := WordLen(s);
      [s[..n]] + Split(s[n..])
  }

  /** `tokenize`. */
  function Tokenize(chars: string): (ts: seq<string>)
    ensures forall t :: t in ts ==> IsWord(t)
  {
    SplitShape(Pad(chars));
    Split(Pad(chars))
  }

  predicate IsWord(t: string) {
    t != [] && forall i :: 0 <= i < |t| ==> !IsSpace(t[i])
  }

  predicate NoParen(t: string) {
    forall i :: 0 <= i < |t| ==> t[i] != '(' && t[i] != ')'
  }

  /** A token as `tokenize` emits it: a lone parenthesis, or a non-empty word without parentheses. */
  predicate TokenShape(t: string) {
    t == "(" || t == ")" || (IsWord(t) && NoParen(t))
  }

  function Concat(ts: seq<string>): string {
    if ts == [] then [] else ts[0] + Concat(ts[1..])
  }

  function RemoveSpace(s: string): string {
    if s == [] then [] else (if IsSpace(s[0]) then [] else [s[0]]) + RemoveSpace(s[1..])
  }

  /** The index of the first parenthesis in `s`, or `|s|` when there is none. */
  function FirstParen(s: string): (k: nat)
    ensures k <= |s| && NoParen(s[..k])
    ensures k < |s| ==> s[k] == '(' || s[k] == ')'
  {
    if s == [] then 0
    else if s[0] == '(' || s[0] == ')' then 0
    else
      var k := 1 + FirstParen(s[1..]);
      assert forall i :: 1 <= i < k ==> s[..k][i] == s[1..][..k - 1][i - 1];
      k
  }

  lemma {:induction false} ReplaceAppend(a: string, b: string, c: char, with: string)
    ensures Replace(a + b, c, with) == Replace(a, c, with) + Replace(b, c, with)
    decreases |a|
  {
    if a != [] {
      assert (a + b)[1..] == a[1..] + b;
      ReplaceAppend(a[1..], b, c, with);
    } else {
      assert a + b == b;
    }
  }

  lemma PadAppend(a: string, b: string)
    ensures Pad(a + b) == Pad(a) + Pad(b)
  {
    ReplaceAppend(a, b, '(', " ( ");
    ReplaceAppend(Replace(a, '(', " ( "), Replace(b, '(', " ( "), ')', " ) ");
  }

  lemma {:induction false} ReplaceAbsent(s: string, c: char, with: string)
    requires forall i :: 0 <= i < |s| ==> s[i] != c
    ensures Replace(s, c, with) == s
    decreases |s|
  {
    if s != [] {
      ReplaceAbsent(s[1..], c, with);
    }
  }

  lemma PadNoParen(s: string)
    requires NoParen(s)
    ensures Pad(s) == s
  {
    ReplaceAbsent(s, '(', " ( ");
    ReplaceAbsent(s, ')', " ) ");
  }

  lemma {:induction false} WordLenStopsAtSpace(a: string, c: char, b: string)
    requires IsSpace(c)
    ensures WordLen(a + [c] + b) == WordLen(a)
    decreases |a|
  {
    if a != [] && !IsSpace(a[0]) {
      assert (a + [c] + b)[1..] == a[1..] + [c] + b;
      WordLenStopsAtSpace(a[1..], c, b);
    }
  }

  /** A white-space character separates the tokens on its two sides. */
  lemma {:induction false} SplitAtSpace(a: string, c: char, b: string)
    requires IsSpace(c)
    ensures Split(a + [c] + b) == Split(a) + Split(b)
    decreases |a|
  {
    var s := a + [c] + b;
    if a == [] {
      assert s[1..] == b;
    } else if IsSpace(a[0]) {
      assert s[1..] == a[1..] + [c] + b;
      SplitAtSpace(a[1..], c, b);
    } else {
      WordLenStopsAtSpace(a, c, b);
      var n := WordLen(a);
      assert s[..n] == a[..n];
      assert s[n..] == a[n..] + [c] + b;
      SplitAtSpace(a[n..], c, b);
    }
  }

  /** Every token of `s.split()` is a non-empty word, and has no parenthesis when `s` has none. */
  lemma {:induction false} SplitShape(s: string)
    ensures forall t :: t in Split(s) ==> IsWord(t) && (NoParen(s) ==> NoParen(t))
    decreases |s|
  {
    if s != [] {
      if IsSpace(s[0]) {
        SplitShape(s[1..]);
      } else {
        var n := WordLen(s);
        SplitShape(s[n..]);
      }
    }
  }

  lemma {:induction false} RemoveSpaceAppend(a: string, b: string)
    ensures RemoveSpace(a + b) == RemoveSpace(a) + RemoveSpace(b)
    decreases |a|
  {
    if a == [] {
      assert a + b == b;
    } else {
      assert (a + b)[1..] == a[1..] + b;
      RemoveSpaceAppend(a[1..], b);
    }
  }

  lemma {:induction false} RemoveSpaceOfWord(w: string)
    requires forall i :: 0 <= i < |w| ==> !IsSpace(w[i])
    ensures RemoveSpace(w) == w
    decreases |w|
  {
    if w != [] {
      RemoveSpaceOfWord(w[1..]);
    }
  }

  lemma {:induction false} ConcatSplit(s: string)
    ensures Concat(Split(s)) == RemoveSpace(s)
    decreases |s|
  {
    if s != [] {
      if IsSpace(s[0]) {
        ConcatSplit(s[1..]);
      } else {
        var n := WordLen(s);
        ConcatSplit(s[n..]);
        var ts := Split(s);
        assert ts[0] == s[..n] && ts[1..] == Split(s[n..]);
        RemoveSpaceOfWord(s[..n]);
        RemoveSpaceAppend(s[..n], s[n..]);
        assert s == s[..n] + s[n..];
      }
    }
  }

  lemma ReplaceOne(c: char, x: char, with: string)
    ensures Replace([c], x, with) == if c == x then with else [c]
  {
    assert [c][1..] == [];
  }

  /** `tokenize` pads a parenthesis with a space on each side and leaves every other character alone. */
  lemma PadOne(c: char)
    ensures Pad([c]) == if c == '(' then " ( " else if c == ')' then " ) " else [c]
  {
    ReplaceOne(c, '(', " ( ");
    if c == '(' {
      ReplaceAbsent(" ( ", ')', " ) ");
    } else {
      ReplaceOne(c, ')', " ) ");
    }
  }

  lemma {:induction false} RemoveSpacePad(s: string)
    ensures RemoveSpace(Pad(s)) == RemoveSpace(s)
    decreases |s|
  {
    if s != [] {
      assert s == [s[0]] + s[1..];
      PadAppend([s[0]], s[1..]);
      RemoveSpacePad(s[1..]);
      RemoveSpaceAppend(Pad([s[0]]), Pad(s[1..]));
      RemoveSpaceAppend([s[0]], s[1..]);
      PadOne(s[0]);
      assert [s[0]][1..] == [];
      assert RemoveSpace(Pad([s[0]])) == RemoveSpace([s[0]]);
    }
  }

  /** A word is split into itself. */
  lemma SplitWord(w: string)
    requires IsWord(w)
    ensures Split(w) == [w]
  {
    WordLenAll(w);
    assert w[..|w|] == w && w[|w|..] == [];
  }

  /** Joining the tokens gives back the input with all of its white space removed. */
  lemma TokenizeConcat(chars: string)
    ensures Concat(Tokenize(chars)) == RemoveSpace(chars)
  {
    ConcatSplit(Pad(chars));
    RemoveSpacePad(chars);
  }

  /** Every parenthesis is a one-character token of its own, and no token holds white space. */
  lemma {:induction false} TokenizeShape(chars: string)
    ensures forall t :: t in Tokenize(chars) ==> TokenShape(t)
    decreases |chars|
  {
    var k := FirstParen(chars);
    if k == |chars| {
      assert chars[..k] == chars;
      PadNoParen(chars);
      SplitShape(chars);
    } else {
      var pre, p, post := chars[..k], chars[k], chars[k + 1..];
      assert chars == pre + [p] + post;
      PadAroundParen(pre, p, post);
      SplitAtSpace(pre, ' ', [p] + [' '] + Pad(post));
      SplitWordCons([p], ' ', Pad(post));
      SplitShape(pre);
      TokenizeShape(post);
    }
  }

  /** Padding around the first parenthesis of a text. */
  lemma PadAroundParen(pre: string, p: char, post: string)
    requires NoParen(pre) && (p == '(' || p == ')')
    ensures Pad(pre + [p] + post) == pre + [' '] + ([p] + [' '] + Pad(post))
  {
    calc {
      Pad(pre + [p] + post);
      { assert pre + [p] + post == pre + ([p] + post); }
      Pad(pre + ([p] + post));
      { PadAppend(pre, [p] + post); }
      Pad(pre) + Pad([p] + post);
      { PadNoParen(pre); PadAppend([p], post); }
      pre + (Pad([p]) + Pad(post));
      { PadOne(p); assert Pad([p]) == [' '] + [p] + [' ']; }
      pre + ([' '] + [p] + [' '] + Pad(post));
      pre + [' '] + ([p] + [' '] + Pad(post));
    }
  }

  /** White space between two texts separates their tokens. */
  lemma TokenizeAtSpace(a: string, c: char, b: string)
    requires IsSpace(c)
    ensures Tokenize(a + [c] + b) == Tokenize(a) + Tokenize(b)
  {
    PadAppend(a + [c], b);
    PadAppend(a, [c]);
    PadOne(c);
    SplitAtSpace(Pad(a), c, Pad(b));
  }

  lemma PadInParens(inner: string)
    ensures Pad("(" + inner + ")") == " ( " + Pad(inner) + " ) "
  {
    PadAppend("(" + inner, ")");
    PadAppend("(", inner);
    PadOne('(');
    PadOne(')');
  }

  /** White space in front of a text adds no token. */
  lemma SplitSpaceCons(c: char, s: string)
    requires IsSpace(c)
    ensures Split([c] + s) == Split(s)
  {
    assert ([c] + s)[1..] == s;
  }

  /** A word followed by white space is the first token. */
  lemma SplitWordCons(w: string, c: char, s: string)
    requires IsWord(w) && IsSpace(c)
    ensures Split(w + [c] + s) == [w] + Split(s)
  {
    SplitAtSpace(w, c, s);
    SplitWord(w);
  }

  /** A parenthesis padded by `tokenize` is a token of its own. */
  lemma SplitPaddedParen(p: char, s: string)
    requires p == '(' || p == ')'
    ensures Split([' ', p, ' '] + s) == [[p]] + Split(s)
  {
    assert [' ', p, ' '] + s == [' '] + ([p] + [' '] + s);
    SplitSpaceCons(' ', [p] + [' '] + s);
    SplitWordCons([p], ' ', s);
  }

  lemma SplitSpacedParens(P: string)
    ensures Split(" ( " + P + " ) ") == ["("] + Split(P) + [")"]
  {
    SplitPaddedParen(')', []);
    assert [' ', ')', ' '] + [] == " ) ";
    SplitSpaceCons(' ', " ) ");
    SplitAtSpace(P, ' ', ")" + " ");
    assert P + " ) " == P + [' '] + (")" + " ");
    SplitPaddedParen('(', P + " ) ");
    assert " ( " + P + " ) " == [' ', '(', ' '] + (P + " ) ");
  }

  /** A parenthesised text tokenizes to its own tokens between two parenthesis tokens. */
  lemma TokenizeInParens(inner: string)
    ensures Tokenize("(" + inner + ")") == ["("] + Tokenize(inner) + [")"]
  {
    PadInParens(inner);
    SplitSpacedParens(Pad(inner));
  }

  /** A word without parentheses is one token. */
  lemma TokenizeWord(w: string)
    requires IsWord(w) && NoParen(w)
    ensures Tokenize(w) == [w]
  {
    PadNoParen(w);
    SplitWord(w);
  }

  lemma {:induction false} WordLenAll(w: string)
    requires forall i :: 0 <= i < |w| ==> !IsSpace(w[i])
    ensures WordLen(w) == |w|
    decreases |w|
  {
    if w != [] {
      WordLenAll(w[1..]);
    }
  }
}
