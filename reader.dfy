/**
 * The reader of emlisp/parser.py: `read_from_tokens`, a recursive-descent parser that
 * consumes tokens from the front of a token list, and `parse`, which reads the first
 * expression of a text.
 */
module Reader {
  import opened Values
  import opened Atoms
  import opened Tokenizer

  /**
   * `read_from_tokens` as a function of the token list: the expression read and the tokens
   * left over. An empty list is 'Unexpected EOF', a leading `)` is 'Unexpected )', and a list
   * that runs out of tokens before its `)` fails with the host's IndexError.
   */
  function Read(ts: seq<string>, isFloat: string -> bool): (r: Result<(Value, seq<string>)>)
    decreases |ts|, 0
    ensures r.Ok? ==> |r.value.1| < |ts|
    ensures r.Err? ==>
      || (ts == [] && r.error == SyntaxError("Unexpected EOF"))
      || (ts != [] && ts[0] == ")" && r.error == SyntaxError("Unexpected )"))
      || r.error == IndexError
  {
    if ts == [] then Err(SyntaxError("Unexpected EOF"))
    else if ts[0] == "(" then
      match ReadItems(ts[1..], isFloat)
      case Err(e) => Err(e)
      case Ok((xs, rest)) => Ok((List(xs), rest))
    else if ts[0] == ")" then Err(SyntaxError("Unexpected )"))
    else
      match Atomize(ts[0], isFloat)
      case Err(e) => Err(e)
      case Ok(v) => Ok((v, ts[1..]))
  }

  /**
   * The loop of `read_from_tokens` after a `(`: the expressions read up to the matching `)`,
   * and the tokens after it. Every way it can fail is the IndexError of an exhausted list.
   */
  function ReadItems(ts: seq<string>, isFloat: string -> bool): (r: Result<(seq<Value>, seq<string>)>)
    decreases |ts|, 1
    ensures r.Ok? ==> |r.value.1| < |ts|
    ensures r.Err? ==> r.error == IndexError
  {
    if ts == [] then Err(IndexError)
    else if ts[0] == ")" then Ok(([], ts[1..]))
    else
      match Read(ts, isFloat)
      case Err(e) => Err(e)
      case Ok((x, rest)) =>
        match ReadItems(rest, isFloat)
        case Err(e) => Err(e)
        case Ok((xs, after)) => Ok(([x] + xs, after))
  }

  /** What the reader leaves over is the tail of its input: it only ever drops tokens from the front. */
  lemma {:induction false} ReadSuffix(ts: seq<string>, isFloat: string -> bool)
    requires Read(ts, isFloat).Ok?
    ensures Read(ts, isFloat).value.1 == ts[|ts| - |Read(ts, isFloat).value.1|..]
    decreases |ts|, 0
  {
    if ts[0] == "(" {
      ReadItemsSuffix(ts[1..], isFloat);
    }
  }

  lemma {:induction false} ReadItemsSuffix(ts: seq<string>, isFloat: string -> bool)
    requires ReadItems(ts, isFloat).Ok?
    ensures ReadItems(ts, isFloat).value.1 == ts[|ts| - |ReadItems(ts, isFloat).value.1|..]
    decreases |ts|, 1
  {
    if ts[0] != ")" {
      var mid := Read(ts, isFloat).value.1;
      ReadSuffix(ts, isFloat);
      ReadItemsSuffix(mid, isFloat);
    }
  }

  /** `items` read so far in front of what the rest of the loop reads. */
  function Prepend(items: seq<Value>, r: Result<(seq<Value>, seq<string>)>): Result<(seq<Value>, seq<string>)> {
    match r
    case Err(e) => Err(e)
    case Ok((xs, rest)) => Ok((items + xs, rest))
  }

  lemma PrependAssoc(a: seq<Value>, b: seq<Value>, r: Result<(seq<Value>, seq<string>)>)
    ensures Prepend(a, Prepend(b, r)) == Prepend(a + b, r)
    ensures Prepend([], r) == r
  {
    if r.Ok? {
      assert a + (b + r.value.0) == a + b + r.value.0;
      assert [] + r.value.0 == r.value.0;
    }
  }

  /**
   * `read_from_tokens`, consuming a token list from the front: after a `(` it reads
   * sub-expressions in a loop until the next token is `)`, which it drops.
   */
  method ReadFromTokens(tokens: seq<string>, isFloat: string -> bool) returns (r: Result<(Value, seq<string>)>)
    ensures r == Read(tokens, isFloat)
    decreases |tokens|
  {
    if |tokens| == 0 {
      return Err(SyntaxError("Unexpected EOF"));
    }
    var token := tokens[0];
    var rest := tokens[1..];
    if token == "(" {
      var items: seq<Value> := [];
      PrependAssoc([], [], ReadItems(rest, isFloat));
      while true
        invariant |rest| < |tokens|
        invariant ReadItems(tokens[1..], isFloat) == Prepend(items, ReadItems(rest, isFloat))
        decreases |rest|
      {
        if |rest| == 0 {
          return Err(IndexError);
        }
        if rest[0] == ")" {
          break;
        }
        var sub := ReadFromTokens(rest, isFloat);
        if sub.Err? {
          return Err(sub.error);
        }
        assert ReadItems(rest, isFloat) == Prepend([sub.value.0], ReadItems(sub.value.1, isFloat));
        PrependAssoc(items, [sub.value.0], ReadItems(sub.value.1, isFloat));
        items := items + [sub.value.0];
        rest := sub.value.1;
      }
      assert ReadItems(rest, isFloat) == Ok(([], rest[1..]));
      assert items + [] == items;
      return Ok((List(items), rest[1..]));
    } else if token == ")" {
      return Err(SyntaxError("Unexpected )"));
    } else {
      var atom := Atomize(token, isFloat);
      if atom.Err? {
        return Err(atom.error);
      }
      return Ok((atom.value, rest));
    }
  }

  /** `parse`: the first expression of the text; the tokens after it are dropped. */
  function Parse(program: string, isFloat: string -> bool): (r: Result<Value>)
    ensures r.Err? ==>
      r.error in {SyntaxError("Unexpected EOF"), SyntaxError("Unexpected )"), IndexError}
  {
    match Read(Tokenize(program), isFloat)
    case Err(e) => Err(e)
    case Ok((v, _)) => Ok(v)
  }

  /**
   * The reader consumes exactly the tokens of one expression: when `used` is what it
   * consumed in front of `rest`, it reads the same from `used` in front of anything else,
   * and leaves that else over.
   */
  lemma {:induction false} ReadPrefix(used: seq<string>, rest: seq<string>, more: seq<string>, v: Value, isFloat: string -> bool)
    requires Read(used + rest, isFloat) == Ok((v, rest))
    ensures Read(used + more, isFloat) == Ok((v, more))
    decreases |used|, 0
  {
    var ts := used + rest;
    assert |used| >= 1;
    assert (used + more)[0] == ts[0] == used[0];
    if ts[0] == "(" {
      assert ts[1..] == used[1..] + rest;
      ReadItemsPrefix(used[1..], rest, more, v.items, isFloat);
      assert (used + more)[1..] == used[1..] + more;
    } else {
      assert |used| == 1;
      assert (used + more)[1..] == more;
    }
  }

  lemma {:induction false} ReadItemsPrefix(used: seq<string>, rest: seq<string>, more: seq<string>, xs: seq<Value>, isFloat: string -> bool)
    requires ReadItems(used + rest, isFloat) == Ok((xs, rest))
    ensures ReadItems(used + more, isFloat) == Ok((xs, more))
    decreases |used|, 1
  {
    assert |used| >= 1;
    assert (used + more)[0] == (used + rest)[0] == used[0];
    if used[0] == ")" {
      CloseAgain(used, rest, more, isFloat);
    } else {
      var u1, m1, x, ys := ItemsDecompose(used, rest, xs, isFloat);
      assert used + more == u1 + (m1 + more);
      ReadPrefix(u1, m1 + rest, m1 + more, x, isFloat);
      ReadItemsPrefix(m1, rest, more, ys, isFloat);
      ReadItemsOfRead(used + more, x, m1 + more, isFloat);
    }
  }

  lemma CloseAgain(used: seq<string>, rest: seq<string>, more: seq<string>, isFloat: string -> bool)
    requires ReadItems(used + rest, isFloat).Ok? && used != [] && used[0] == ")"
    requires ReadItems(used + rest, isFloat).value.1 == rest
    ensures ReadItems(used + more, isFloat) == Ok(([], more))
  {
    CloseConsumesOne(used + rest, isFloat);
    assert (used + rest)[0] == used[0] == (used + more)[0];
    assert |used| == 1;
    assert (used + more)[1..] == more;
  }

  /** A `)` ends the list loop after one token. */
  lemma CloseConsumesOne(ts: seq<string>, isFloat: string -> bool)
    requires ReadItems(ts, isFloat).Ok? && ts[0] == ")"
    ensures ReadItems(ts, isFloat) == Ok(([], ts[1..]))
  {
  }

  /**
   * The list loop over `used + rest` that leaves `rest` reads a first expression from a
   * prefix `u1` of `used` and the remaining elements from the rest `m1` of it.
   */
  lemma ItemsDecompose(used: seq<string>, rest: seq<string>, xs: seq<Value>, isFloat: string -> bool)
    returns (u1: seq<string>, m1: seq<string>, x: Value, ys: seq<Value>)
    requires ReadItems(used + rest, isFloat) == Ok((xs, rest))
    requires used != [] && used[0] != ")"
    ensures used == u1 + m1 && |u1| >= 1
    ensures Read(u1 + (m1 + rest), isFloat) == Ok((x, m1 + rest))
    ensures ReadItems(m1 + rest, isFloat) == Ok((ys, rest)) && xs == [x] + ys
  {
    var ts := used + rest;
    assert ts[0] == used[0];
    var mid: seq<string>;
    x, mid := Read(ts, isFloat).value.0, Read(ts, isFloat).value.1;
    ys := ReadItems(mid, isFloat).value.0;
    ReadSuffix(ts, isFloat);
    ReadItemsSuffix(mid, isFloat);
    u1 := ts[..|ts| - |mid|];
    m1 := mid[..|mid| - |rest|];
    SplitConsumed(used, rest, mid, u1, m1);
  }

  /**
   * Any proper, non-empty prefix of the tokens of one expression is an unterminated list,
   * and reading it fails with the host's IndexError, not with a SyntaxError.
   */
  lemma {:induction false} ReadTruncated(used: seq<string>, rest: seq<string>, v: Value, k: nat, isFloat: string -> bool)
    requires Read(used + rest, isFloat) == Ok((v, rest))
    requires 0 < k < |used|
    ensures Read(used[..k], isFloat) == Err(IndexError)
    decreases |used|, 0
  {
    var ts := used + rest;
    var cut := used[..k];
    assert ts[0] == used[0] == cut[0];
    assert ts[0] == "(" by {
      if ts[0] != "(" {
        AtomConsumesOne(ts, isFloat);
      }
    }
    assert ts[1..] == used[1..] + rest;
    assert cut[1..] == used[1..][..k - 1];
    ReadItemsTruncated(used[1..], rest, v.items, k - 1, isFloat);
    ReadOfFailedItems(cut, isFloat);
  }

  /** An expression that does not start with `(` is one token long. */
  lemma AtomConsumesOne(ts: seq<string>, isFloat: string -> bool)
    requires Read(ts, isFloat).Ok? && ts[0] != "("
    ensures Read(ts, isFloat).value.1 == ts[1..]
  {
  }

  /** A list whose loop fails fails the same way. */
  lemma ReadOfFailedItems(ts: seq<string>, isFloat: string -> bool)
    requires ts != [] && ts[0] == "(" && ReadItems(ts[1..], isFloat).Err?
    ensures Read(ts, isFloat) == Err(ReadItems(ts[1..], isFloat).error)
  {
  }

  lemma {:induction false} ReadItemsTruncated(used: seq<string>, rest: seq<string>, xs: seq<Value>, k: nat, isFloat: string -> bool)
    requires ReadItems(used + rest, isFloat) == Ok((xs, rest))
    requires k < |used|
    ensures ReadItems(used[..k], isFloat) == Err(IndexError)
    decreases |used|, 1
  {
    if k > 0 {
      var cut := used[..k];
      assert (used + rest)[0] == used[0] == cut[0];
      assert used[0] != ")" by {
        if used[0] == ")" {
          CloseConsumesOne(used + rest, isFloat);
        }
      }
      var u1, m1, x, ys := ItemsDecompose(used, rest, xs, isFloat);
      if k < |u1| {
        assert cut == u1[..k];
        ReadTruncated(u1, m1 + rest, x, k, isFloat);
        ReadItemsOfFailedRead(cut, isFloat);
      } else {
        var tail := m1[..k - |u1|];
        assert cut == u1 + tail;
        ReadPrefix(u1, m1 + rest, tail, x, isFloat);
        ReadItemsTruncated(m1, rest, ys, k - |u1|, isFloat);
        ReadItemsOfRead(cut, x, tail, isFloat);
      }
    }
  }

  /** Where one expression ends inside `used + rest`, `used` is that expression followed by the rest of `used`. */
  lemma SplitConsumed(used: seq<string>, rest: seq<string>, mid: seq<string>, u1: seq<string>, m1: seq<string>)
    requires |rest| <= |mid| <= |used + rest|
    requires mid == (used + rest)[|used + rest| - |mid|..] && rest == mid[|mid| - |rest|..]
    requires u1 == (used + rest)[..|used + rest| - |mid|] && m1 == mid[..|mid| - |rest|]
    ensures used == u1 + m1 && mid == m1 + rest && used + rest == u1 + mid
  {
    assert mid == m1 + rest;
    assert used + rest == u1 + m1 + rest;
  }

  /** After an expression that does not start with `)`, the list loop goes on after it. */
  lemma ReadItemsOfRead(ts: seq<string>, x: Value, mid: seq<string>, isFloat: string -> bool)
    requires ts != [] && ts[0] != ")" && Read(ts, isFloat) == Ok((x, mid))
    ensures ReadItems(ts, isFloat) == Prepend([x], ReadItems(mid, isFloat))
  {
  }

  /** A failure to read an element is a failure of the list loop. */
  lemma ReadItemsOfFailedRead(ts: seq<string>, isFloat: string -> bool)
    requires ts != [] && ts[0] != ")" && Read(ts, isFloat).Err?
    ensures ReadItems(ts, isFloat) == Err(Read(ts, isFloat).error)
  {
  }

  /** An unterminated list such as `(quote` fails with IndexError. */
  lemma UnterminatedQuote(isFloat: string -> bool)
    ensures Read(["(", "quote"], isFloat) == Err(IndexError)
  {
    assert ["(", "quote"][1..] == ["quote"];
    assert ["quote"][1..] == [];
  }

  /** `parse` returns the first complete expression and drops everything after it. */
  lemma ParseFirstOnly(a: string, c: char, b: string, isFloat: string -> bool)
    requires IsSpace(c) && Parse(a, isFloat).Ok?
    ensures Parse(a + [c] + b, isFloat) == Parse(a, isFloat)
  {
    TokenizeAtSpace(a, c, b);
    ReadExtends(Tokenize(a), Tokenize(b), isFloat);
  }

  /** Tokens after a complete expression do not change what is read, only what is left over. */
  lemma ReadExtends(ts: seq<string>, more: seq<string>, isFloat: string -> bool)
    requires Read(ts, isFloat).Ok?
    ensures Read(ts + more, isFloat) == Ok((Read(ts, isFloat).value.0, Read(ts, isFloat).value.1 + more))
  {
    var (v, rest) := Read(ts, isFloat).value;
    ReadSuffix(ts, isFloat);
    var used := ts[..|ts| - |rest|];
    assert ts == used + rest;
    ReadPrefix(used, rest, rest + more, v, isFloat);
    assert used + (rest + more) == ts + more;
  }

  lemma {:induction false} ReadEofOnlyWhenEmpty(ts: seq<string>, isFloat: string -> bool)
    ensures Read(ts, isFloat) == Err(SyntaxError("Unexpected EOF")) <==> ts == []
  {
  }

  /** `parse` reports 'Unexpected EOF' exactly when the text holds nothing but white space. */
  lemma ParseEof(program: string, isFloat: string -> bool)
    ensures Parse(program, isFloat) == Err(SyntaxError("Unexpected EOF")) <==> RemoveSpace(program) == []
  {
    var ts := Tokenize(program);
    TokenizeConcat(program);
    TokenizeShape(program);
    ReadEofOnlyWhenEmpty(ts, isFloat);
    if ts != [] {
      assert ts[0] in ts;
      assert Concat(ts) == ts[0] + Concat(ts[1..]);
    }
  }

  /** Neither a String nor a float anywhere inside. */
  predicate NoStringOrFloat(v: Value)
    decreases v
  {
    match v
    case String(_) => false
    case Float(_) => false
    case List(xs) => forall i :: 0 <= i < |xs| ==> NoStringOrFloat(xs[i])
    case _ => true
  }

  /**
   * A value whose written form reads back as itself: every atom inside writes as one token
   * that `atomize` maps back to that atom.
   */
  predicate Rereadable(v: Value, isFloat: string -> bool)
    decreases v
  {
    match v
    case List(xs) => forall i :: 0 <= i < |xs| ==> Rereadable(xs[i], isFloat)
    case _ => IsWord(Write(v)) && NoParen(Write(v)) && Atomize(Write(v), isFloat) == Ok(v)
  }

  /** The tokens of the written form of a value. */
  function Tokens(v: Value): (ts: seq<string>)
    decreases v, 1
    ensures |ts| >= 1
  {
    match v
    case List(xs) => ["("] + TokensAll(xs) + [")"]
    case _ => [Write(v)]
  }

  function TokensAll(xs: seq<Value>): seq<string>
    decreases xs, 0
  {
    if xs == [] then [] else Tokens(xs[0]) + TokensAll(xs[1..])
  }

  lemma {:induction false} TokenizeWrite(v: Value, isFloat: string -> bool)
    requires Rereadable(v, isFloat)
    ensures Tokenize(Write(v)) == Tokens(v)
    decreases v, 1
  {
    match v
    case List(xs) =>
      TokenizeInParens(JoinSpace(WriteAll(xs)));
      TokenizeWriteAll(xs, isFloat);
    case _ =>
      TokenizeWord(Write(v));
  }

  lemma {:induction false} TokenizeWriteAll(xs: seq<Value>, isFloat: string -> bool)
    requires forall i :: 0 <= i < |xs| ==> Rereadable(xs[i], isFloat)
    ensures Tokenize(JoinSpace(WriteAll(xs))) == TokensAll(xs)
    decreases xs, 0
  {
    if xs == [] {
      assert Pad([]) == [];
    } else {
      TokenizeWrite(xs[0], isFloat);
      assert WriteAll(xs)[0] == Write(xs[0]) && WriteAll(xs)[1..] == WriteAll(xs[1..]);
      if |xs| == 1 {
        assert TokensAll(xs[1..]) == [];
      } else {
        TokenizeWriteAll(xs[1..], isFloat);
        TokenizeAtSpace(Write(xs[0]), ' ', JoinSpace(WriteAll(xs[1..])));
      }
    }
  }

  lemma {:induction false} ReadTokens(v: Value, more: seq<string>, isFloat: string -> bool)
    requires Rereadable(v, isFloat)
    ensures Read(Tokens(v) + more, isFloat) == Ok((v, more))
    decreases v, 1
  {
    if v.List? {
      ReadTokensAll(v.items, more, isFloat);
      ReadOpenParen(TokensAll(v.items) + [")"] + more, isFloat);
      assert Tokens(v) + more == ["("] + (TokensAll(v.items) + [")"] + more);
    } else {
      ReadAtomToken(Write(v), v, more, isFloat);
    }
  }

  /** A `(` starts a List of what the list loop reads after it. */
  lemma ReadOpenParen(ts: seq<string>, isFloat: string -> bool)
    requires ReadItems(ts, isFloat).Ok?
    ensures Read(["("] + ts, isFloat) == Ok((List(ReadItems(ts, isFloat).value.0), ReadItems(ts, isFloat).value.1))
  {
    assert (["("] + ts)[1..] == ts;
  }

  /** A word without parentheses that atomizes to `v` is read as `v`, consuming one token. */
  lemma ReadAtomToken(tok: string, v: Value, more: seq<string>, isFloat: string -> bool)
    requires IsWord(tok) && NoParen(tok) && Atomize(tok, isFloat) == Ok(v)
    ensures Read([tok] + more, isFloat) == Ok((v, more))
  {
    var ts := [tok] + more;
    assert tok[0] != '(' && tok[0] != ')';
    assert ts[0] == tok != "(" && tok != ")";
    assert ts[1..] == more;
  }

  predicate AllRereadable(xs: seq<Value>, isFloat: string -> bool) {
    forall i :: 0 <= i < |xs| ==> Rereadable(xs[i], isFloat)
  }

  lemma {:induction false} ReadTokensAll(xs: seq<Value>, more: seq<string>, isFloat: string -> bool)
    requires AllRereadable(xs, isFloat)
    ensures ReadItems(TokensAll(xs) + [")"] + more, isFloat) == Ok((xs, more))
    decreases xs, 0
  {
    if xs == [] {
      var ts := TokensAll(xs) + [")"] + more;
      assert ts == [")"] + more;
      assert ts[1..] == more;
    } else {
      AllRereadableSplit(xs, isFloat);
      ReadTokensAll(xs[1..], more, isFloat);
      TokensAllCons(xs, more);
      ReadOneMore(xs, TokensAll(xs[1..]) + [")"] + more, more, isFloat);
    }
  }

  lemma AllRereadableSplit(xs: seq<Value>, isFloat: string -> bool)
    requires AllRereadable(xs, isFloat) && xs != []
    ensures Rereadable(xs[0], isFloat) && AllRereadable(xs[1..], isFloat)
  {
    assert forall i :: 0 <= i < |xs| - 1 ==> xs[1..][i] == xs[i + 1];
  }

  /** One more re-readable value in front of a list loop's tokens is one more element. */
  lemma ReadOneMore(xs: seq<Value>, M: seq<string>, more: seq<string>, isFloat: string -> bool)
    requires AllRereadable(xs, isFloat) && xs != [] && ReadItems(M, isFloat) == Ok((xs[1..], more))
    ensures ReadItems(Tokens(xs[0]) + M, isFloat) == Ok((xs, more))
    decreases xs, 0, 1
  {
    AllRereadableSplit(xs, isFloat);
    FirstTokenNotClose(xs[0], M, isFloat);
    ReadTokens(xs[0], M, isFloat);
    ReadItemsOfRead(Tokens(xs[0]) + M, xs[0], M, isFloat);
    assert xs == [xs[0]] + xs[1..];
  }

  lemma TokensAllCons(xs: seq<Value>, more: seq<string>)
    requires xs != []
    ensures TokensAll(xs) + [")"] + more == Tokens(xs[0]) + (TokensAll(xs[1..]) + [")"] + more)
  {
    assert TokensAll(xs) == Tokens(xs[0]) + TokensAll(xs[1..]);
  }

  /** The tokens of a re-readable value do not start with `)`. */
  lemma FirstTokenNotClose(v: Value, more: seq<string>, isFloat: string -> bool)
    requires Rereadable(v, isFloat)
    ensures (Tokens(v) + more)[0] != ")"
  {
    assert (Tokens(v) + more)[0] == Tokens(v)[0];
    if !v.List? {
      assert Tokens(v)[0] == Write(v);
      assert NoParen(Write(v)) && IsWord(Write(v));
      assert Write(v)[0] != ')';
    }
  }

  predicate AllShaped(ts: seq<string>) {
    forall i :: 0 <= i < |ts| ==> TokenShape(ts[i])
  }

  /** An atom read from a token, other than a String or a float, writes back to a token of its own. */
  lemma AtomRereadable(tok: string, isFloat: string -> bool)
    requires TokenShape(tok) && tok != "(" && tok != ")"
    requires Atomize(tok, isFloat).Ok?
    requires NoStringOrFloat(Atomize(tok, isFloat).value)
    ensures Rereadable(Atomize(tok, isFloat).value, isFloat)
  {
    var v := Atomize(tok, isFloat).value;
    AtomizeWrite(tok, isFloat);
    if v.Numeric? {
      IntToStringWord(v.n);
    }
  }

  /** The decimal text of an integer is one word of digits and perhaps a minus sign. */
  lemma IntToStringWord(n: int)
    ensures IsWord(IntToString(n)) && NoParen(IntToString(n))
  {
    NatToStringDigits(if n < 0 then -n else n);
    var w := IntToString(n);
    assert forall i :: 0 <= i < |w| ==> IsDigit(w[i]) || w[i] == '-' by {
      if n < 0 {
        assert forall i :: 1 <= i < |w| ==> w[i] == NatToString(-n)[i - 1];
      }
    }
  }

  lemma {:induction false} ReadRereadable(ts: seq<string>, isFloat: string -> bool)
    requires AllShaped(ts) && Read(ts, isFloat).Ok?
    requires NoStringOrFloat(Read(ts, isFloat).value.0)
    ensures Rereadable(Read(ts, isFloat).value.0, isFloat)
    decreases |ts|, 0
  {
    if ts[0] == "(" {
      ReadItemsRereadable(ts[1..], isFloat);
    } else {
      AtomRereadable(ts[0], isFloat);
    }
  }

  lemma {:induction false} ReadItemsRereadable(ts: seq<string>, isFloat: string -> bool)
    requires AllShaped(ts) && ReadItems(ts, isFloat).Ok?
    requires forall i :: 0 <= i < |ReadItems(ts, isFloat).value.0| ==> NoStringOrFloat(ReadItems(ts, isFloat).value.0[i])
    ensures forall i :: 0 <= i < |ReadItems(ts, isFloat).value.0| ==> Rereadable(ReadItems(ts, isFloat).value.0[i], isFloat)
    decreases |ts|, 1
  {
    if ts[0] != ")" {
      var (x, mid) := Read(ts, isFloat).value;
      var xs := ReadItems(ts, isFloat).value.0;
      assert xs[0] == x && xs[1..] == ReadItems(mid, isFloat).value.0;
      ReadRereadable(ts, isFloat);
      ReadSuffix(ts, isFloat);
      assert AllShaped(mid) by {
        assert forall i :: 0 <= i < |mid| ==> mid[i] == ts[|ts| - |mid| + i];
      }
      assert forall i :: 0 <= i < |xs| - 1 ==> xs[1..][i] == xs[i + 1];
      ReadItemsRereadable(mid, isFloat);
    }
  }

  /**
   * For every value `parse` returns that contains no String and no float, parsing its
   * written form gives the same value back.
   */
  lemma ParseWriteRoundTrip(program: string, isFloat: string -> bool)
    requires Parse(program, isFloat).Ok?
    requires NoStringOrFloat(Parse(program, isFloat).value)
    ensures Parse(Write(Parse(program, isFloat).value), isFloat) == Parse(program, isFloat)
  {
    var v := Parse(program, isFloat).value;
    TokenizeShape(program);
    var ts := Tokenize(program);
    assert AllShaped(ts) by {
      forall i | 0 <= i < |ts| ensures TokenShape(ts[i]) {
        assert ts[i] in ts;
      }
    }
    ReadRereadable(ts, isFloat);
    TokenizeWrite(v, isFloat);
    ReadTokens(v, [], isFloat);
    assert Tokens(v) + [] == Tokens(v);
  }

  /** A one-digit numeral reads back as its number. */
  lemma DigitRereadable(n: nat, isFloat: string -> bool)
    requires n < 10
    ensures Rereadable(Numeric(n), isFloat)
  {
    IntToStringParses(n);
    DigitWrite(n);
  }

  lemma DigitWrite(n: nat)
    requires n < 10
    ensures Write(Numeric(n)) == [DigitChar(n)]
  {
  }

  lemma WriteCons(x: Value, xs: seq<Value>)
    ensures WriteAll([x] + xs) == [Write(x)] + WriteAll(xs)
  {
    assert ([x] + xs)[1..] == xs;
  }

  lemma JoinCons(p: string, ps: seq<string>)
    requires ps != []
    ensures JoinSpace([p] + ps) == p + " " + JoinSpace(ps)
  {
    assert ([p] + ps)[1..] == ps;
  }

  lemma WriteNumbersExample()
    ensures Write(List([Numeric(1), Numeric(2), Numeric(3)])) == "(1 2 3)"
  {
    DigitWrite(1);
    DigitWrite(2);
    DigitWrite(3);
    WriteCons(Numeric(3), []);
    WriteCons(Numeric(2), [Numeric(3)]);
    WriteCons(Numeric(1), [Numeric(2), Numeric(3)]);
    JoinCons("2", ["3"]);
    JoinCons("1", ["2", "3"]);
  }

  lemma WriteExample()
    ensures Write(List([Symbol("quote"), List([Numeric(1), Numeric(2), Numeric(3)])])) == "(quote (1 2 3))"
  {
    var numbers := List([Numeric(1), Numeric(2), Numeric(3)]);
    WriteNumbersExample();
    WriteCons(numbers, []);
    WriteCons(Symbol("quote"), [numbers]);
    assert Write(Symbol("quote")) == "quote";
    assert WriteAll([Symbol("quote"), numbers]) == ["quote", "(1 2 3)"];
    JoinCons("quote", ["(1 2 3)"]);
  }

  lemma QuoteRereadable(isFloat: string -> bool)
    requires !isFloat("quote")
    ensures Rereadable(List([Symbol("quote"), List([Numeric(1), Numeric(2), Numeric(3)])]), isFloat)
  {
    var ns := [Numeric(1), Numeric(2), Numeric(3)];
    forall i | 0 <= i < |ns|
      ensures Rereadable(ns[i], isFloat)
    {
      assert ns[i] == Numeric(i + 1);
      DigitRereadable(i + 1, isFloat);
    }
    assert Rereadable(List(ns), isFloat);
    AtomizeQuote(isFloat);
    var qs := [Symbol("quote"), List(ns)];
    assert forall i :: 0 <= i < |qs| ==> Rereadable(qs[i], isFloat);
  }

  /** The symbol `quote` is read as itself. */
  lemma AtomizeQuote(isFloat: string -> bool)
    requires !isFloat("quote")
    ensures Rereadable(Symbol("quote"), isFloat)
  {
    assert Strip("quote") == "quote";
    assert IsWord("quote") && NoParen("quote");
  }

  /** `(quote (1 2 3))` reads as a two-element List whose second element lists the numbers 1, 2, 3. */
  lemma QuoteExample(isFloat: string -> bool)
    requires !isFloat("quote")
    ensures Parse("(quote (1 2 3))", isFloat)
      == Ok(List([Symbol("quote"), List([Numeric(1), Numeric(2), Numeric(3)])]))
  {
    var v := List([Symbol("quote"), List([Numeric(1), Numeric(2), Numeric(3)])]);
    QuoteRereadable(isFloat);
    WriteExample();
    TokenizeWrite(v, isFloat);
    ReadTokens(v, [], isFloat);
    assert Tokens(v) + [] == Tokens(v);
  }
}
