/** Compiling a conditional-forwarding rule into a policy expression
    (cmd/glory-hole/main.go) and what the expression means.

    An expression is printed and parsed as tokens; a string literal is one token that
    carries the value quoting and unquoting leave unchanged. */
module PolicyExpr {
  import opened Wrappers
  import opened Text
  import opened DomainMatch

  datatype Token = LPar | RPar | Op(op: Operator) | Equals | Comma | Ident(name: Name) | Lit(value: string)
  datatype Operator = AndOp | OrOp

  /** The variables and helper functions migrated rules mention. */
  datatype Name =
    | VDomain | VClientIP | VQueryType
    | FDomainMatches | FDomainEndsWith | FIPInCIDR | FQueryTypeIn

  datatype Term = Var(name: Name) | Str(value: string)
  datatype Expr = Binary(op: Operator, left: Expr, right: Expr) | Eq(a: Term, b: Term) | Call(f: Name, args: seq<Term>)

  // ---------------------------------------------------------------- the parser: && binds tighter than ||

  datatype Parsed = Fail | Done(e: Expr, rest: seq<Token>)
  datatype Args = BadArgs | Args(terms: seq<Term>, rest: seq<Token>)

  predicate IsTerm(t: Token) { t.Ident? || t.Lit? }

  function ToTerm(t: Token): Term
    requires IsTerm(t)
  {
    if t.Ident? then Var(t.name) else Str(t.value)
  }

  /** term { "," term } ")" */
  function ParseArgs(ts: seq<Token>): (r: Args)
    ensures r.Args? ==> |r.rest| < |ts|
  {
    if |ts| < 2 || !IsTerm(ts[0]) then BadArgs
    else if ts[1] == RPar then Args([ToTerm(ts[0])], ts[2..])
    else if ts[1] != Comma then BadArgs
    else
      var r := ParseArgs(ts[2..]);
      if r == BadArgs then BadArgs else Args([ToTerm(ts[0])] + r.terms, r.rest)
  }

  /** "(" expr ")" | name "(" args ")" | term "==" term */
  function ParseAtom(ts: seq<Token>): (r: Parsed)
    ensures r.Done? ==> |r.rest| < |ts|
    decreases |ts|, 0
  {
    if ts == [] then Fail
    else if ts[0] == LPar then
      var r := ParseOr(ts[1..]);
      if r.Done? && r.rest != [] && r.rest[0] == RPar then Done(r.e, r.rest[1..]) else Fail
    else if |ts| >= 2 && ts[0].Ident? && ts[1] == LPar then
      var r := ParseArgs(ts[2..]);
      if r == BadArgs then Fail else Done(Call(ts[0].name, r.terms), r.rest)
    else if |ts| >= 3 && IsTerm(ts[0]) && ts[1] == Equals && IsTerm(ts[2]) then
      Done(Eq(ToTerm(ts[0]), ToTerm(ts[2])), ts[3..])
    else Fail
  }

  function ParseAnd(ts: seq<Token>): (r: Parsed)
    ensures r.Done? ==> |r.rest| < |ts|
    decreases |ts|, 1
  {
    var r := ParseAtom(ts);
    if r == Fail then Fail else AndTail(r.e, r.rest)
  }

  function AndTail(acc: Expr, ts: seq<Token>): (r: Parsed)
    ensures r.Done? ==> |r.rest| <= |ts|
    decreases |ts|, 0
  {
    if ts == [] || ts[0] != Op(AndOp) then Done(acc, ts)
    else
      var r := ParseAtom(ts[1..]);
      if r == Fail then Fail else AndTail(Binary(AndOp, acc, r.e), r.rest)
  }

  function ParseOr(ts: seq<Token>): (r: Parsed)
    ensures r.Done? ==> |r.rest| < |ts|
    decreases |ts|, 2
  {
    var r := ParseAnd(ts);
    if r == Fail then Fail else OrTail(r.e, r.rest)
  }

  function OrTail(acc: Expr, ts: seq<Token>): (r: Parsed)
    ensures r.Done? ==> |r.rest| <= |ts|
    decreases |ts|, 0
  {
    if ts == [] || ts[0] != Op(OrOp) then Done(acc, ts)
    else
      var r := ParseAnd(ts[1..]);
      if r == Fail then Fail else OrTail(Binary(OrOp, acc, r.e), r.rest)
  }

  function Parse(ts: seq<Token>): Option<Expr>
  {
    var r := ParseOr(ts);
    if r.Done? && r.rest == [] then Some(r.e) else None
  }

  // ---------------------------------------------------------------- evaluation

  datatype Query = Query(domain: string, clientIP: string, queryType: string)

  type InCidr = (string, string) -> bool

  function Value(q: Query, t: Term): Option<string>
  {
    match t
    case Str(s) => Some(s)
    case Var(VDomain) => Some(q.domain)
    case Var(VClientIP) => Some(q.clientIP)
    case Var(VQueryType) => Some(q.queryType)
    case Var(_) => None
  }

  predicate AllLiterals(args: seq<Term>) { forall i :: 0 <= i < |args| ==> args[i].Str? }

  predicate QueryTypeIn(queryType: string, types: seq<Term>)
  {
    exists i :: 0 <= i < |types| && types[i].Str? && ToUpper(types[i].value) == ToUpper(queryType)
  }

  /** A helper function on its subject and the literals that follow. */
  function Apply(inCidr: InCidr, f: Name, subject: string, lits: seq<Term>): Option<bool>
  {
    if !AllLiterals(lits) then None
    else if f == FQueryTypeIn then Some(QueryTypeIn(subject, lits))
    else if |lits| != 1 then None
    else
      match f
      case FDomainMatches => Some(DomainMatches(subject, lits[0].value))
      case FDomainEndsWith => Some(DomainEndsWith(subject, lits[0].value))
      case FIPInCIDR => Some(inCidr(subject, lits[0].value))
      case _ => None
  }

  /** None is an evaluation error.  Both operators stop early. */
  function Eval(inCidr: InCidr, q: Query, e: Expr): Option<bool>
  {
    match e
    case Binary(op, l, r) =>
      var left := Eval(inCidr, q, l);
      if left == None || left.value == (op == OrOp) then left else Eval(inCidr, q, r)
    case Eq(a, b) =>
      if Value(q, a) == None || Value(q, b) == None then None else Some(Value(q, a) == Value(q, b))
    case Call(f, args) =>
      if args == [] || Value(q, args[0]) == None then None
      else Apply(inCidr, f, Value(q, args[0]).value, args[1..])
  }

  // ---------------------------------------------------------------- the printer

  datatype Rule = Rule(name: string, domains: seq<string>, cidrs: seq<string>, queryTypes: seq<string>,
                       upstreams: seq<string>, priority: int, enabled: bool)

  const REGEX_CHARS := "()[]{}^$|\\+?"

  predicate LooksLikeRegex(d: string)
  {
    exists i :: 0 <= i < |d| && d[i] in REGEX_CHARS
  }

  function CallTokens(f: Name, subject: Name, arg: string): seq<Token>
  {
    [Ident(f), LPar, Ident(subject), Comma, Lit(arg), RPar]
  }

  function EqTokens(s: string): seq<Token>
  {
    [Ident(VDomain), Equals, Lit(s)]
  }

  function DomainTokens(d: string): seq<Token>
  {
    if HasPrefix(d, "*.") then
      [LPar] + (EqTokens(d[2..]) + [Op(OrOp)] + CallTokens(FDomainEndsWith, VDomain, "." + d[2..])) + [RPar]
    else if LooksLikeRegex(d) then CallTokens(FDomainMatches, VDomain, d)
    else EqTokens(d)
  }

  function CidrTokens(c: string): seq<Token>
  {
    CallTokens(FIPInCIDR, VClientIP, c)
  }

  /** `", "`-joined literals, up to the closing parenthesis. */
  function Literals(qs: seq<string>): seq<Token>
    requires qs != []
  {
    [Lit(qs[0])] + if |qs| == 1 then [RPar] else [Comma] + Literals(qs[1..])
  }

  function TypeTokens(qs: seq<string>): seq<Token>
    requires qs != []
  {
    [Ident(FQueryTypeIn), LPar, Ident(VQueryType), Comma] + Literals(qs)
  }

  function MoreTokens(op: Operator, parts: seq<seq<Token>>): seq<Token>
  {
    if parts == [] then [] else [Op(op)] + parts[0] + MoreTokens(op, parts[1..])
  }

  function JoinTokens(op: Operator, parts: seq<seq<Token>>): seq<Token>
  {
    if parts == [] then [] else parts[0] + MoreTokens(op, parts[1..])
  }

  function Map<A, B>(f: A -> B, xs: seq<A>): (r: seq<B>)
    ensures |r| == |xs| && forall i :: 0 <= i < |xs| ==> r[i] == f(xs[i])
  {
    seq(|xs|, i requires 0 <= i < |xs| => f(xs[i]))
  }

  /** One alternative stands alone, several go in parentheses. */
  function Group(parts: seq<seq<Token>>): seq<Token>
    requires parts != []
  {
    if |parts| == 1 then parts[0] else [LPar] + JoinTokens(OrOp, parts) + [RPar]
  }

  function Groups(rule: Rule): seq<seq<Token>>
  {
    (if rule.domains == [] then [] else [Group(Map(DomainTokens, rule.domains))]) +
    (if rule.cidrs == [] then [] else [Group(Map(CidrTokens, rule.cidrs))]) +
    (if rule.queryTypes == [] then [] else [TypeTokens(rule.queryTypes)])
  }

  /** buildPolicyLogicFromCFRule */
  function BuildLogic(rule: Rule): seq<Token>
  {
    JoinTokens(AndOp, Groups(rule))
  }

  // ---------------------------------------------------------------- what the rule means

  predicate Wildcard(d: string) { |d| >= 2 && d[0] == '*' && d[1] == '.' }

  /** One of the twelve characters of a regular expression that make an entry look like one:
      parentheses, brackets, braces, caret, dollar, bar, backslash, plus, question mark. */
  predicate RegexSign(c: char)
  {
    var n := c as int;
    40 <= n <= 41 || n == 91 || n == 93 || n == 123 || n == 125 || n == 94 || n == 36 || n == 124 || n == 92 || n == 43
    || n == 63
  }

  predicate RegexLike(d: string)
  {
    exists i :: 0 <= i < |d| && RegexSign(d[i])
  }

  /** A wildcard stands for its base and everything below it, a regex-looking entry for what
      DomainMatches says, any other for itself. */
  predicate DomainMeans(d: string, name: string)
  {
    if Wildcard(d) then name == d[2..] || FoldSuffix(name, "." + d[2..])
    else if RegexLike(d) then DomainMatches(name, d)
    else name == d
  }

  lemma KindOfEntry(d: string)
    ensures HasPrefix(d, "*.") <==> Wildcard(d)
    ensures LooksLikeRegex(d) <==> RegexLike(d)
  {
    if |d| >= 2 { assert d[..2] == [d[0], d[1]]; }
    forall i | 0 <= i < |d|
      ensures d[i] in REGEX_CHARS <==> RegexSign(d[i])
    {
      RegexChar(d[i]);
    }
  }

  lemma RegexChar(c: char)
    ensures c in REGEX_CHARS <==> RegexSign(c)
  {
    assert REGEX_CHARS == "()" + "[]" + "{}" + "^$" + "|" + "\\" + "+?";
    assert c in REGEX_CHARS <==> exists i :: 0 <= i < 12 && REGEX_CHARS[i] == c;
  }

  predicate DomainsMatch(domains: seq<string>, name: string)
  {
    exists i :: 0 <= i < |domains| && DomainMeans(domains[i], name)
  }

  predicate CidrsMatch(inCidr: InCidr, cidrs: seq<string>, ip: string)
  {
    exists i :: 0 <= i < |cidrs| && inCidr(ip, cidrs[i])
  }

  predicate TypesMatch(types: seq<string>, queryType: string)
  {
    exists i :: 0 <= i < |types| && FoldSame(types[i], queryType)
  }

  /** Every kind of matcher that is present has an alternative that matches. */
  predicate RuleMatches(inCidr: InCidr, rule: Rule, q: Query)
  {
    && (rule.domains != [] ==> DomainsMatch(rule.domains, q.domain))
    && (rule.cidrs != [] ==> CidrsMatch(inCidr, rule.cidrs, q.clientIP))
    && (rule.queryTypes != [] ==> TypesMatch(rule.queryTypes, q.queryType))
  }

  predicate HasMatchers(rule: Rule)
  {
    rule.domains != [] || rule.cidrs != [] || rule.queryTypes != []
  }

  // ---------------------------------------------------------------- parsing what was printed

  /** Whatever follows, these tokens are read as the atom `e`. */
  ghost predicate IsAtom(ts: seq<Token>, e: Expr)
  {
    forall rest :: ParseAtom(ts + rest) == Done(e, rest)
  }

  /** Nothing that would continue an expression follows. */
  predicate Stops(rest: seq<Token>) { rest == [] || !rest[0].Op? }

  function Fold(op: Operator, acc: Expr, es: seq<Expr>): Expr
    decreases |es|
  {
    if es == [] then acc else Fold(op, Binary(op, acc, es[0]), es[1..])
  }

  ghost predicate Atoms(parts: seq<seq<Token>>, es: seq<Expr>)
  {
    |parts| == |es| && forall i :: 0 <= i < |parts| ==> IsAtom(parts[i], es[i])
  }

  lemma AndReadsOne(part: seq<Token>, e: Expr, after: seq<Token>)
    requires IsAtom(part, e)
    ensures ParseAnd(part + after) == AndTail(e, after)
  {
    assert ParseAtom(part + after) == Done(e, after);
  }

  lemma AndTailStep(acc: Expr, part: seq<Token>, e: Expr, after: seq<Token>)
    requires IsAtom(part, e)
    ensures AndTail(acc, [Op(AndOp)] + (part + after)) == AndTail(Binary(AndOp, acc, e), after)
  {
    assert ParseAtom(part + after) == Done(e, after);
    assert ([Op(AndOp)] + (part + after))[1..] == part + after;
  }

  lemma OrTailStep(acc: Expr, part: seq<Token>, e: Expr, after: seq<Token>)
    requires IsAtom(part, e) && (after == [] || after[0] != Op(AndOp))
    ensures OrTail(acc, [Op(OrOp)] + (part + after)) == OrTail(Binary(OrOp, acc, e), after)
  {
    AndReadsOne(part, e, after);
    assert ([Op(OrOp)] + (part + after))[1..] == part + after;
  }

  lemma MoreTokensSplit(op: Operator, parts: seq<seq<Token>>, rest: seq<Token>)
    requires parts != []
    ensures MoreTokens(op, parts) + rest == [Op(op)] + (parts[0] + (MoreTokens(op, parts[1..]) + rest))
  {
  }

  lemma MoreTokensStart(op: Operator, parts: seq<seq<Token>>, rest: seq<Token>)
    requires Stops(rest)
    ensures var after := MoreTokens(op, parts) + rest; after == [] || after[0] == Op(op) || !after[0].Op?
  {
  }

  lemma {:induction false} OrTailReads(acc: Expr, parts: seq<seq<Token>>, es: seq<Expr>, rest: seq<Token>)
    requires Atoms(parts, es) && Stops(rest)
    ensures OrTail(acc, MoreTokens(OrOp, parts) + rest) == Done(Fold(OrOp, acc, es), rest)
    decreases |parts|
  {
    if parts == [] {
      assert MoreTokens(OrOp, parts) + rest == rest;
    } else {
      MoreTokensSplit(OrOp, parts, rest);
      MoreTokensStart(OrOp, parts[1..], rest);
      OrTailStep(acc, parts[0], es[0], MoreTokens(OrOp, parts[1..]) + rest);
      OrTailReads(Binary(OrOp, acc, es[0]), parts[1..], es[1..], rest);
    }
  }

  lemma {:induction false} AndTailReads(acc: Expr, parts: seq<seq<Token>>, es: seq<Expr>, rest: seq<Token>)
    requires Atoms(parts, es) && Stops(rest)
    ensures AndTail(acc, MoreTokens(AndOp, parts) + rest) == Done(Fold(AndOp, acc, es), rest)
    decreases |parts|
  {
    if parts == [] {
      assert MoreTokens(AndOp, parts) + rest == rest;
    } else {
      MoreTokensSplit(AndOp, parts, rest);
      AndTailStep(acc, parts[0], es[0], MoreTokens(AndOp, parts[1..]) + rest);
      AndTailReads(Binary(AndOp, acc, es[0]), parts[1..], es[1..], rest);
    }
  }

  lemma OrListReads(parts: seq<seq<Token>>, es: seq<Expr>, rest: seq<Token>)
    requires parts != [] && Atoms(parts, es) && Stops(rest)
    ensures ParseOr(JoinTokens(OrOp, parts) + rest) == Done(Fold(OrOp, es[0], es[1..]), rest)
  {
    var after := MoreTokens(OrOp, parts[1..]) + rest;
    assert JoinTokens(OrOp, parts) + rest == parts[0] + after;
    MoreTokensStart(OrOp, parts[1..], rest);
    AndReadsOne(parts[0], es[0], after);
    OrTailReads(es[0], parts[1..], es[1..], rest);
  }

  lemma AndListReads(parts: seq<seq<Token>>, es: seq<Expr>)
    requires parts != [] && Atoms(parts, es)
    ensures Parse(JoinTokens(AndOp, parts)) == Some(Fold(AndOp, es[0], es[1..]))
  {
    var after := MoreTokens(AndOp, parts[1..]);
    AndReadsOne(parts[0], es[0], after);
    AndTailReads(es[0], parts[1..], es[1..], []);
    assert after + [] == after;
    var e := Fold(AndOp, es[0], es[1..]);
    assert ParseAnd(JoinTokens(AndOp, parts)) == Done(e, []);
    assert OrTail(e, []) == Done(e, []);
  }

  lemma ParenReads(inner: seq<Token>, e: Expr, rest: seq<Token>)
    requires ParseOr(inner + ([RPar] + rest)) == Done(e, [RPar] + rest)
    ensures ParseAtom([LPar] + inner + [RPar] + rest) == Done(e, rest)
  {
    var ts := [LPar] + inner + [RPar] + rest;
    assert ts[1..] == inner + ([RPar] + rest);
    assert ([RPar] + rest)[1..] == rest;
  }

  function GroupExpr(es: seq<Expr>): Expr
    requires es != []
  {
    Fold(OrOp, es[0], es[1..])
  }

  lemma GroupIsAtom(parts: seq<seq<Token>>, es: seq<Expr>)
    requires parts != [] && Atoms(parts, es)
    ensures IsAtom(Group(parts), GroupExpr(es))
  {
    if |parts| == 1 {
      assert IsAtom(parts[0], es[0]);
    } else {
      forall rest ensures ParseAtom(Group(parts) + rest) == Done(GroupExpr(es), rest) {
        OrListReads(parts, es, [RPar] + rest);
        ParenReads(JoinTokens(OrOp, parts), GroupExpr(es), rest);
      }
    }
  }

  lemma CallIsAtom(f: Name, subject: Name, arg: string)
    ensures IsAtom(CallTokens(f, subject, arg), Call(f, [Var(subject), Str(arg)]))
  {
    forall rest ensures ParseAtom(CallTokens(f, subject, arg) + rest) == Done(Call(f, [Var(subject), Str(arg)]), rest) {
      var ts := CallTokens(f, subject, arg) + rest;
      var args := [Lit(arg), RPar] + rest;
      assert args[2..] == rest;
      assert ParseArgs(args) == Args([Str(arg)], rest);
      assert ts[2..] == [Ident(subject), Comma] + args;
      assert ts[2..][2..] == args;
      assert ParseArgs(ts[2..]) == Args([Var(subject)] + [Str(arg)], rest);
      assert [Var(subject)] + [Str(arg)] == [Var(subject), Str(arg)];
      assert ts[0] == Ident(f) && ts[1] == LPar;
    }
  }

  lemma EqIsAtom(s: string)
    ensures IsAtom(EqTokens(s), Eq(Var(VDomain), Str(s)))
  {
    forall rest ensures ParseAtom(EqTokens(s) + rest) == Done(Eq(Var(VDomain), Str(s)), rest) {
      assert (EqTokens(s) + rest)[3..] == rest;
    }
  }

  function DomainExpr(d: string): Expr
  {
    if HasPrefix(d, "*.") then
      Binary(OrOp, Eq(Var(VDomain), Str(d[2..])), Call(FDomainEndsWith, [Var(VDomain), Str("." + d[2..])]))
    else if LooksLikeRegex(d) then Call(FDomainMatches, [Var(VDomain), Str(d)])
    else Eq(Var(VDomain), Str(d))
  }

  lemma TwoReads(a: seq<Token>, b: seq<Token>, x: Expr, y: Expr)
    requires IsAtom(a, x) && IsAtom(b, y)
    ensures IsAtom([LPar] + (a + [Op(OrOp)] + b) + [RPar], Binary(OrOp, x, y))
  {
    var parts, es := [a, b], [x, y];
    assert IsAtom(parts[0], es[0]) && IsAtom(parts[1], es[1]);
    GroupIsAtom(parts, es);
    assert parts[1..] == [b] && es[1..] == [y];
    assert MoreTokens(OrOp, []) == [] && MoreTokens(OrOp, [b]) == [Op(OrOp)] + b;
    assert JoinTokens(OrOp, parts) == a + [Op(OrOp)] + b;
    assert Fold(OrOp, Binary(OrOp, x, y), []) == Binary(OrOp, x, y);
    assert Fold(OrOp, x, [y]) == Binary(OrOp, x, y);
  }

  lemma AtomParses(a: seq<Token>, x: Expr)
    requires IsAtom(a, x)
    ensures Parse(a) == Some(x)
  {
    OrListReads([a], [x], []);
    assert JoinTokens(OrOp, [a]) + [] == a;
    assert Fold(OrOp, x, []) == x;
  }

  lemma TwoParse(a: seq<Token>, b: seq<Token>, x: Expr, y: Expr)
    requires IsAtom(a, x) && IsAtom(b, y)
    ensures Parse(a + [Op(OrOp)] + b) == Some(Binary(OrOp, x, y))
  {
    var parts, es := [a, b], [x, y];
    OrListReads(parts, es, []);
    assert parts[1..] == [b] && es[1..] == [y];
    assert MoreTokens(OrOp, []) == [] && MoreTokens(OrOp, [b]) == [Op(OrOp)] + b;
    assert JoinTokens(OrOp, parts) + [] == a + [Op(OrOp)] + b;
    assert Fold(OrOp, Binary(OrOp, x, y), []) == Binary(OrOp, x, y);
  }

  lemma WildcardIsAtom(base: string)
    ensures IsAtom([LPar] + (EqTokens(base) + [Op(OrOp)] + CallTokens(FDomainEndsWith, VDomain, "." + base)) + [RPar],
                   Binary(OrOp, Eq(Var(VDomain), Str(base)), Call(FDomainEndsWith, [Var(VDomain), Str("." + base)])))
  {
    EqIsAtom(base);
    CallIsAtom(FDomainEndsWith, VDomain, "." + base);
    TwoReads(EqTokens(base), CallTokens(FDomainEndsWith, VDomain, "." + base),
             Eq(Var(VDomain), Str(base)), Call(FDomainEndsWith, [Var(VDomain), Str("." + base)]));
  }

  lemma DomainIsAtom(d: string)
    ensures IsAtom(DomainTokens(d), DomainExpr(d))
  {
    if HasPrefix(d, "*.") {
      WildcardIsAtom(d[2..]);
    } else if LooksLikeRegex(d) {
      CallIsAtom(FDomainMatches, VDomain, d);
    } else {
      EqIsAtom(d);
    }
  }

  function CidrExpr(c: string): Expr
  {
    Call(FIPInCIDR, [Var(VClientIP), Str(c)])
  }

  function StrTerm(s: string): Term { Str(s) }

  function TypeExpr(qs: seq<string>): Expr
  {
    Call(FQueryTypeIn, [Var(VQueryType)] + Map(StrTerm, qs))
  }

  lemma {:induction false} LiteralsRead(qs: seq<string>, rest: seq<Token>)
    requires qs != []
    ensures ParseArgs(Literals(qs) + rest) == Args(Map(StrTerm, qs), rest)
  {
    var ts := Literals(qs) + rest;
    if |qs| == 1 {
      assert ts[2..] == rest;
      assert Map(StrTerm, qs) == [Str(qs[0])];
    } else {
      LiteralsRead(qs[1..], rest);
      assert ts[2..] == Literals(qs[1..]) + rest;
      assert Map(StrTerm, qs) == [Str(qs[0])] + Map(StrTerm, qs[1..]);
    }
  }

  lemma TypeIsAtom(qs: seq<string>)
    requires qs != []
    ensures IsAtom(TypeTokens(qs), TypeExpr(qs))
  {
    forall rest ensures ParseAtom(TypeTokens(qs) + rest) == Done(TypeExpr(qs), rest) {
      var ts := TypeTokens(qs) + rest;
      LiteralsRead(qs, rest);
      assert ts[2..] == [Ident(VQueryType), Comma] + (Literals(qs) + rest);
      assert ts[2..][2..] == Literals(qs) + rest;
    }
  }

  function GroupExprs(rule: Rule): seq<Expr>
  {
    (if rule.domains == [] then [] else [GroupExpr(Map(DomainExpr, rule.domains))]) +
    (if rule.cidrs == [] then [] else [GroupExpr(Map(CidrExpr, rule.cidrs))]) +
    (if rule.queryTypes == [] then [] else [TypeExpr(rule.queryTypes)])
  }

  lemma GroupsAreAtoms(rule: Rule)
    ensures Atoms(Groups(rule), GroupExprs(rule))
  {
    if rule.domains != [] {
      forall i | 0 <= i < |rule.domains| ensures IsAtom(DomainTokens(rule.domains[i]), DomainExpr(rule.domains[i])) {
        DomainIsAtom(rule.domains[i]);
      }
      GroupIsAtom(Map(DomainTokens, rule.domains), Map(DomainExpr, rule.domains));
    }
    if rule.cidrs != [] {
      forall i | 0 <= i < |rule.cidrs| ensures IsAtom(CidrTokens(rule.cidrs[i]), CidrExpr(rule.cidrs[i])) {
        CallIsAtom(FIPInCIDR, VClientIP, rule.cidrs[i]);
      }
      GroupIsAtom(Map(CidrTokens, rule.cidrs), Map(CidrExpr, rule.cidrs));
    }
    if rule.queryTypes != [] {
      TypeIsAtom(rule.queryTypes);
    }
  }

  // ---------------------------------------------------------------- the meaning of what was parsed

  lemma InTail<T>(xs: seq<T>, x: T)
    requires xs != []
    ensures x in xs <==> x == xs[0] || x in xs[1..]
  {
    assert xs == [xs[0]] + xs[1..];
  }

  /** A fold evaluates to the disjunction (conjunction) of its parts. */
  lemma {:induction false} FoldEvaluates(inCidr: InCidr, q: Query, op: Operator, acc: Expr, b: bool,
                                         es: seq<Expr>, bs: seq<bool>)
    requires Eval(inCidr, q, acc) == Some(b) && |es| == |bs|
    requires forall i :: 0 <= i < |es| ==> Eval(inCidr, q, es[i]) == Some(bs[i])
    ensures Eval(inCidr, q, Fold(op, acc, es)) ==
            Some(if op == OrOp then b || true in bs else b && false !in bs)
    decreases |es|
  {
    if es != [] {
      var b' := if op == OrOp then b || bs[0] else b && bs[0];
      assert Eval(inCidr, q, Binary(op, acc, es[0])) == Some(b');
      FoldEvaluates(inCidr, q, op, Binary(op, acc, es[0]), b', es[1..], bs[1..]);
      InTail(bs, true);
      InTail(bs, false);
    }
  }

  lemma GroupEvaluates(inCidr: InCidr, q: Query, es: seq<Expr>, bs: seq<bool>)
    requires es != [] && |es| == |bs| && forall i :: 0 <= i < |es| ==> Eval(inCidr, q, es[i]) == Some(bs[i])
    ensures Eval(inCidr, q, GroupExpr(es)) == Some(true in bs)
  {
    FoldEvaluates(inCidr, q, OrOp, es[0], bs[0], es[1..], bs[1..]);
    InTail(bs, true);
  }

  lemma CallEvaluates(inCidr: InCidr, q: Query, f: Name, v: Name, s: string)
    requires Value(q, Var(v)).Some?
    ensures Eval(inCidr, q, Call(f, [Var(v), Str(s)])) == Apply(inCidr, f, Value(q, Var(v)).value, [Str(s)])
  {
    assert [Var(v), Str(s)][1..] == [Str(s)];
  }

  lemma EqEvaluates(inCidr: InCidr, q: Query, s: string)
    ensures Eval(inCidr, q, Eq(Var(VDomain), Str(s))) == Some(q.domain == s)
  {
  }

  lemma DomainEvaluates(inCidr: InCidr, q: Query, d: string)
    ensures Eval(inCidr, q, DomainExpr(d)) == Some(DomainMeans(d, q.domain))
  {
    KindOfEntry(d);
    if HasPrefix(d, "*.") {
      DomainEndsWithMeans(q.domain, "." + d[2..]);
      EqEvaluates(inCidr, q, d[2..]);
      CallEvaluates(inCidr, q, FDomainEndsWith, VDomain, "." + d[2..]);
    } else if LooksLikeRegex(d) {
      CallEvaluates(inCidr, q, FDomainMatches, VDomain, d);
    } else {
      EqEvaluates(inCidr, q, d);
    }
  }

  lemma DomainsEvaluate(inCidr: InCidr, q: Query, domains: seq<string>)
    requires domains != []
    ensures Eval(inCidr, q, GroupExpr(Map(DomainExpr, domains))) == Some(DomainsMatch(domains, q.domain))
  {
    var bs := seq(|domains|, i requires 0 <= i < |domains| => DomainMeans(domains[i], q.domain));
    forall i | 0 <= i < |domains| ensures Eval(inCidr, q, Map(DomainExpr, domains)[i]) == Some(bs[i]) {
      DomainEvaluates(inCidr, q, domains[i]);
    }
    GroupEvaluates(inCidr, q, Map(DomainExpr, domains), bs);
    assert forall i :: 0 <= i < |domains| ==> bs[i] == DomainMeans(domains[i], q.domain);
  }

  lemma CidrsEvaluate(inCidr: InCidr, q: Query, cidrs: seq<string>)
    requires cidrs != []
    ensures Eval(inCidr, q, GroupExpr(Map(CidrExpr, cidrs))) == Some(CidrsMatch(inCidr, cidrs, q.clientIP))
  {
    var bs := seq(|cidrs|, i requires 0 <= i < |cidrs| => inCidr(q.clientIP, cidrs[i]));
    forall i | 0 <= i < |cidrs| ensures Eval(inCidr, q, Map(CidrExpr, cidrs)[i]) == Some(bs[i]) {
      CallEvaluates(inCidr, q, FIPInCIDR, VClientIP, cidrs[i]);
    }
    GroupEvaluates(inCidr, q, Map(CidrExpr, cidrs), bs);
    assert forall i :: 0 <= i < |cidrs| ==> bs[i] == inCidr(q.clientIP, cidrs[i]);
  }

  lemma TypesEvaluate(inCidr: InCidr, q: Query, types: seq<string>)
    ensures Eval(inCidr, q, TypeExpr(types)) == Some(TypesMatch(types, q.queryType))
  {
    var args := [Var(VQueryType)] + Map(StrTerm, types);
    assert args[1..] == Map(StrTerm, types);
    assert Value(q, args[0]) == Some(q.queryType);
    var lits := Map(StrTerm, types);
    assert forall i :: 0 <= i < |types| ==> lits[i] == Str(types[i]);
    forall i | 0 <= i < |types| ensures ToUpper(types[i]) == ToUpper(q.queryType) <==> FoldSame(types[i], q.queryType) {
      FoldMeans(types[i], q.queryType);
    }
  }

  function Verdicts(inCidr: InCidr, rule: Rule, q: Query): seq<bool>
  {
    (if rule.domains == [] then [] else [DomainsMatch(rule.domains, q.domain)]) +
    (if rule.cidrs == [] then [] else [CidrsMatch(inCidr, rule.cidrs, q.clientIP)]) +
    (if rule.queryTypes == [] then [] else [TypesMatch(rule.queryTypes, q.queryType)])
  }

  lemma VerdictsEvaluate(inCidr: InCidr, rule: Rule, q: Query)
    ensures var es, bs := GroupExprs(rule), Verdicts(inCidr, rule, q);
            |es| == |bs| && forall i :: 0 <= i < |es| ==> Eval(inCidr, q, es[i]) == Some(bs[i])
  {
    if rule.domains != [] { DomainsEvaluate(inCidr, q, rule.domains); }
    if rule.cidrs != [] { CidrsEvaluate(inCidr, q, rule.cidrs); }
    if rule.queryTypes != [] { TypesEvaluate(inCidr, q, rule.queryTypes); }
  }

  lemma VerdictsMean(inCidr: InCidr, rule: Rule, q: Query)
    ensures RuleMatches(inCidr, rule, q) <==> false !in Verdicts(inCidr, rule, q)
  {
  }

  lemma LogicParses(rule: Rule)
    requires HasMatchers(rule)
    ensures GroupExprs(rule) != []
    ensures Parse(BuildLogic(rule)) == Some(Fold(AndOp, GroupExprs(rule)[0], GroupExprs(rule)[1..]))
  {
    GroupsAreAtoms(rule);
    AndListReads(Groups(rule), GroupExprs(rule));
  }

  lemma ConjunctionEvaluates(inCidr: InCidr, q: Query, es: seq<Expr>, bs: seq<bool>)
    requires es != [] && |es| == |bs| && forall i :: 0 <= i < |es| ==> Eval(inCidr, q, es[i]) == Some(bs[i])
    ensures Eval(inCidr, q, Fold(AndOp, es[0], es[1..])) == Some(false !in bs)
  {
    FoldEvaluates(inCidr, q, AndOp, es[0], bs[0], es[1..], bs[1..]);
    InTail(bs, false);
  }

  /** The printed logic parses, never fails to evaluate, and means the rule: for every query
      the conjunction over the kinds present of the disjunction within each. */
  lemma LogicMeansRule(inCidr: InCidr, rule: Rule, q: Query)
    requires HasMatchers(rule)
    ensures Parse(BuildLogic(rule)).Some?
    ensures Eval(inCidr, q, Parse(BuildLogic(rule)).value) == Some(RuleMatches(inCidr, rule, q))
  {
    LogicParses(rule);
    VerdictsEvaluate(inCidr, rule, q);
    ConjunctionEvaluates(inCidr, q, GroupExprs(rule), Verdicts(inCidr, rule, q));
    VerdictsMean(inCidr, rule, q);
  }

  /** Nothing is printed exactly when there is nothing to match. */
  lemma EmptyLogic(rule: Rule)
    ensures BuildLogic(rule) == [] <==> !HasMatchers(rule)
  {
    if HasMatchers(rule) {
      LogicParses(rule);
      assert Parse([]) == None;
    }
  }
}
