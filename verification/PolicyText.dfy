/** Reading the text of a policy expression into tokens, as far as the whitelist migration
    of cmd/glory-hole/main.go prints it. */
module PolicyText {
  import opened Wrappers
  import opened PolicyExpr

  predicate IsLetter(c: char) { 'a' <= c <= 'z' || 'A' <= c <= 'Z' }

  /** The leading letters. */
  function Word(s: string): (w: string)
    ensures |w| <= |s|
  {
    if s == "" || !IsLetter(s[0]) then "" else [s[0]] + Word(s[1..])
  }

  function NameOf(word: string): Option<Name>
  {
    if word == "Domain" then Some(VDomain)
    else if word == "ClientIP" then Some(VClientIP)
    else if word == "QueryType" then Some(VQueryType)
    else if word == "DomainMatches" then Some(FDomainMatches)
    else if word == "DomainEndsWith" then Some(FDomainEndsWith)
    else if word == "IPInCIDR" then Some(FIPInCIDR)
    else if word == "QueryTypeIn" then Some(FQueryTypeIn)
    else None
  }

  predicate Special(c: char) { c == '"' || c == '\\' }

  /** The text up to the first quote or backslash. */
  function Body(s: string): (b: string)
    ensures |b| <= |s|
  {
    if s == "" || Special(s[0]) then "" else [s[0]] + Body(s[1..])
  }

  function Prepend(t: Token, ts: Option<seq<Token>>): Option<seq<Token>>
  {
    if ts == None then None else Some([t] + ts.value)
  }

  function Named(name: Option<Name>, rest: Option<seq<Token>>): Option<seq<Token>>
  {
    if name == None then None else Prepend(Ident(name.value), rest)
  }

  /** None is an error.  Escapes in literals are not read: a backslash is an error here, and
      an escape never stands for the characters it is written with. */
  function Lex(s: string): Option<seq<Token>>
    decreases |s|
  {
    if s == "" then Some([])
    else if s[0] == ' ' then Lex(s[1..])
    else if s[0] == '(' then Prepend(LPar, Lex(s[1..]))
    else if s[0] == ')' then Prepend(RPar, Lex(s[1..]))
    else if s[0] == ',' then Prepend(Comma, Lex(s[1..]))
    else if |s| >= 2 && s[0] == s[1] == '=' then Prepend(Equals, Lex(s[2..]))
    else if |s| >= 2 && s[0] == s[1] == '|' then Prepend(Op(OrOp), Lex(s[2..]))
    else if |s| >= 2 && s[0] == s[1] == '&' then Prepend(Op(AndOp), Lex(s[2..]))
    else if s[0] == '"' then
      var n := |Body(s[1..])| + 1;
      if n < |s| && s[n] == '"' then Prepend(Lit(s[1..n]), Lex(s[n + 1..])) else None
    else if IsLetter(s[0]) then
      var w := Word(s);
      assert |w| > 0;
      Named(NameOf(w), Lex(s[|w|..]))
    else None
  }

  // ---------------------------------------------------------------- reading one token

  lemma LexSymbol(rest: string)
    ensures Lex(" " + rest) == Lex(rest)
    ensures Lex("(" + rest) == Prepend(LPar, Lex(rest))
    ensures Lex(")" + rest) == Prepend(RPar, Lex(rest))
    ensures Lex("," + rest) == Prepend(Comma, Lex(rest))
  {
    assert (" " + rest)[1..] == rest;
    assert ("(" + rest)[1..] == rest;
    assert (")" + rest)[1..] == rest;
    assert ("," + rest)[1..] == rest;
  }

  lemma LexOperator(rest: string)
    ensures Lex("==" + rest) == Prepend(Equals, Lex(rest))
    ensures Lex("||" + rest) == Prepend(Op(OrOp), Lex(rest))
  {
    assert ("==" + rest)[2..] == rest;
    assert ("||" + rest)[2..] == rest;
  }

  lemma {:induction false} WordIs(w: string, rest: string)
    requires forall i :: 0 <= i < |w| ==> IsLetter(w[i])
    requires rest == "" || !IsLetter(rest[0])
    ensures Word(w + rest) == w
  {
    if w == "" {
      assert w + rest == rest;
    } else {
      WordIs(w[1..], rest);
      assert (w + rest)[1..] == w[1..] + rest;
    }
  }

  lemma LexLetter(s: string)
    requires s != "" && IsLetter(s[0])
    ensures Lex(s) == Named(NameOf(Word(s)), Lex(s[|Word(s)|..]))
  {
  }

  lemma LexWord(w: string, rest: string)
    requires w != "" && (forall i :: 0 <= i < |w| ==> IsLetter(w[i])) && (rest == "" || !IsLetter(rest[0]))
    ensures Lex(w + rest) == Named(NameOf(w), Lex(rest))
  {
    WordIs(w, rest);
    assert (w + rest)[0] == w[0] && (w + rest)[|w|..] == rest;
    LexLetter(w + rest);
  }

  predicate Plain(x: string) { forall i :: 0 <= i < |x| ==> !Special(x[i]) }

  lemma {:induction false} BodyIs(x: string, rest: string)
    ensures |Body(x + "\"" + rest)| <= |x|
    ensures Plain(x) <==> |Body(x + "\"" + rest)| == |x|
    ensures !Plain(x) ==> Special(x[|Body(x + "\"" + rest)|])
  {
    var s := x + "\"" + rest;
    if x != "" {
      assert s[1..] == x[1..] + "\"" + rest && s[0] == x[0];
      BodyIs(x[1..], rest);
      assert Plain(x) <==> !Special(x[0]) && Plain(x[1..]) by {
        assert forall i :: 1 <= i < |x| ==> x[i] == x[1..][i - 1];
      }
    }
  }

  /** A literal is read back as it was written exactly if it holds no quote and no backslash. */
  lemma LexLiteral(x: string, rest: string)
    ensures Plain(x) ==> Lex("\"" + x + "\"" + rest) == Prepend(Lit(x), Lex(rest))
    ensures !Plain(x) ==> var r := Lex("\"" + x + "\"" + rest); r.Some? ==> r.value[0] != Lit(x)
  {
    var s := "\"" + x + "\"" + rest;
    assert s[1..] == x + "\"" + rest;
    BodyIs(x, rest);
    var n := |Body(s[1..])| + 1;
    assert s[0] == '"';
    assert Plain(x) ==> s[1..n] == x && s[n] == '"' && s[n + 1..] == rest;
    assert |s[1..n]| == n - 1;
  }

  // ---------------------------------------------------------------- reading token by token

  type Lexer = string -> Option<seq<Token>>

  function PrependAll(ts: seq<Token>, rest: Option<seq<Token>>): Option<seq<Token>>
  {
    if rest == None then None else Some(ts + rest.value)
  }

  /** Reading `s` yields `ts` and then what reading `rest` yields. */
  ghost predicate Reads(lex: Lexer, s: string, ts: seq<Token>, rest: string)
  {
    lex(s) == PrependAll(ts, lex(rest))
  }

  /** If reading `s` succeeds at all, token `i` is not `t`. */
  ghost predicate Misreads(lex: Lexer, s: string, i: nat, t: Token)
  {
    lex(s).Some? ==> i < |lex(s).value| && lex(s).value[i] != t
  }

  lemma ReadsOn(lex: Lexer, s: string, ts: seq<Token>, mid: string, us: seq<Token>, rest: string)
    requires Reads(lex, s, ts, mid) && Reads(lex, mid, us, rest)
    ensures Reads(lex, s, ts + us, rest)
  {
    if lex(rest).Some? {
      assert ts + (us + lex(rest).value) == ts + us + lex(rest).value;
    }
  }

  lemma MisreadsOn(lex: Lexer, s: string, ts: seq<Token>, mid: string, i: nat, t: Token)
    requires Reads(lex, s, ts, mid) && Misreads(lex, mid, i, t)
    ensures Misreads(lex, s, |ts| + i, t)
  {
  }

  function Quoted(x: string, rest: string): string { "\"" + x + "\"" + rest }

  predicate NoLetter(rest: string) { rest == "" || !IsLetter(rest[0]) }

  /** What the migration relies on. */
  ghost predicate IsLexer(lex: Lexer)
  {
    && lex("") == Some([])
    && (forall rest :: Reads(lex, " " + rest, [], rest))
    && (forall rest :: Reads(lex, "(" + rest, [LPar], rest))
    && (forall rest :: Reads(lex, ")" + rest, [RPar], rest))
    && (forall rest :: Reads(lex, "," + rest, [Comma], rest))
    && (forall rest :: Reads(lex, "==" + rest, [Equals], rest))
    && (forall rest :: Reads(lex, "||" + rest, [Op(OrOp)], rest))
    && (forall w, rest :: IsName(w) && NoLetter(rest) ==> Reads(lex, w + rest, [Ident(NameOf(w).value)], rest))
    && (forall x, rest :: Plain(x) ==> Reads(lex, Quoted(x, rest), [Lit(x)], rest))
    && (forall x, rest :: !Plain(x) ==> Misreads(lex, Quoted(x, rest), 0, Lit(x)))
  }

  predicate IsName(w: string)
  {
    w != "" && (forall i :: 0 <= i < |w| ==> IsLetter(w[i])) && NameOf(w).Some?
  }

  lemma PrependOne(t: Token, rest: Option<seq<Token>>)
    ensures Prepend(t, rest) == PrependAll([t], rest)
    ensures rest == PrependAll([], rest)
  {
    assert rest.Some? ==> [] + rest.value == rest.value;
  }

  function TheLexer(): Lexer { s => Lex(s) }

  lemma LexIsLexer()
    ensures IsLexer(TheLexer())
  {
    var lex := TheLexer();
    forall rest
      ensures Reads(lex, " " + rest, [], rest) && Reads(lex, "(" + rest, [LPar], rest)
      ensures Reads(lex, ")" + rest, [RPar], rest) && Reads(lex, "," + rest, [Comma], rest)
    {
      LexSymbol(rest);
      PrependOne(LPar, Lex(rest));
    }
    forall rest ensures Reads(lex, "==" + rest, [Equals], rest) && Reads(lex, "||" + rest, [Op(OrOp)], rest) {
      LexOperator(rest);
    }
    forall w, rest | IsName(w) && NoLetter(rest) ensures Reads(lex, w + rest, [Ident(NameOf(w).value)], rest) {
      LexWord(w, rest);
    }
    forall x, rest | Plain(x) ensures Reads(lex, Quoted(x, rest), [Lit(x)], rest) { LexLiteral(x, rest); }
    forall x, rest | !Plain(x) ensures Misreads(lex, Quoted(x, rest), 0, Lit(x)) {
      LexLiteral(x, rest);
      LexNonEmpty(x, rest);
    }
  }

  lemma LexNonEmpty(x: string, rest: string)
    ensures Lex(Quoted(x, rest)) != Some([])
  {
    assert Quoted(x, rest)[0] == '"';
  }
}
