/** Migrating the whitelist to ALLOW policies across interrupted boots
    (cmd/glory-hole/main.go). */
module WhitelistMigration {
  import opened Wrappers
  import opened Text
  import opened PolicyStore
  import opened PolicyExpr
  import opened PolicyText
  import opened MigrationRuns
  import opened PolicyEngine
  import opened Lists

  const SENTINEL := "whitelist_migrated_at"

  // ---------------------------------------------------------------- one entry

  predicate Pattern(entry: string)
  {
    !HasPrefix(entry, "*.") && LooksLikeRegex(entry)
  }

  /** What the rule is called, between "Allow " and " (migrated)". */
  function Title(entry: string): string
  {
    if Pattern(entry) then "pattern " + entry else entry
  }

  function EntryName(entry: string): string
  {
    "Allow " + Title(entry) + " (migrated)"
  }

  /** `Domain == "x"` and whatever follows. */
  function EqText(x: string, rest: string): string { "Domain == " + Quoted(x, rest) }

  function CallText(f: string, x: string): string { f + ("(Domain, " + Quoted(x, ")")) }

  function EntryLogic(entry: string): string
  {
    if HasPrefix(entry, "*.") then EqText(entry[2..], " || " + CallText("DomainEndsWith", "." + entry[2..]))
    else if LooksLikeRegex(entry) then CallText("DomainMatches", entry)
    else EqText(entry, "")
  }

  function EntryDraft(i: int, entry: string): Draft<string>
  {
    Draft(EntryName(entry), EntryLogic(entry), Allow, "", true, i)
  }

  function Drafts(whitelist: seq<string>): (r: seq<Draft<string>>)
    ensures |r| == |whitelist| && forall i :: 0 <= i < |r| ==> r[i] == EntryDraft(i, whitelist[i])
  {
    seq(|whitelist|, i requires 0 <= i < |whitelist| => EntryDraft(i, whitelist[i]))
  }

  lemma TitleInjective(a: string, b: string)
    requires Title(a) == Title(b)
    ensures a == b
  {
    assert Pattern(a) ==> a == Title(a)[8..];
    assert Pattern(b) ==> b == Title(b)[8..];
    if Pattern(a) { PatternIsNoTitle(a, b); }
    if Pattern(b) { PatternIsNoTitle(b, a); }
  }

  /** A regex-looking entry leaves its special characters in the title. */
  lemma PatternIsNoTitle(a: string, b: string)
    requires Pattern(a) && Title(a) == Title(b)
    ensures Pattern(b)
  {
    var i :| 0 <= i < |a| && a[i] in REGEX_CHARS;
    assert Title(a)[i + 8] == a[i];
    assert Title(a)[0] == 'p';
  }

  /** Distinct entries get distinct names, whatever they look like. */
  lemma NameInjective(a: string, b: string)
    ensures EntryName(a) == EntryName(b) <==> a == b
  {
    if EntryName(a) == EntryName(b) {
      assert |EntryName(a)| == |Title(a)| + 17 && |EntryName(b)| == |Title(b)| + 17;
      assert Title(a) == EntryName(a)[6..6 + |Title(a)|];
      assert Title(b) == EntryName(b)[6..6 + |Title(b)|];
      TitleInjective(a, b);
    }
  }

  // ---------------------------------------------------------------- what the stored text means

  /** The tokens the text is meant to be read as. */
  function EntryTokens(entry: string): seq<Token>
  {
    if HasPrefix(entry, "*.") then
      EqTokens(entry[2..]) + [Op(OrOp)] + CallTokens(FDomainEndsWith, VDomain, "." + entry[2..])
    else DomainTokens(entry)
  }

  lemma ReadsName(lex: Lexer, w: string, name: Name, rest: string)
    requires IsLexer(lex) && IsName(w) && NameOf(w) == Some(name) && NoLetter(rest)
    ensures Reads(lex, w + rest, [Ident(name)], rest)
  {
  }

  lemma SomeNames()
    ensures IsName("Domain") && NameOf("Domain") == Some(VDomain)
    ensures IsName("DomainEndsWith") && NameOf("DomainEndsWith") == Some(FDomainEndsWith)
    ensures IsName("DomainMatches") && NameOf("DomainMatches") == Some(FDomainMatches)
  {
  }

  lemma ReadsDomain(lex: Lexer, rest: string)
    requires IsLexer(lex) && NoLetter(rest)
    ensures Reads(lex, "Domain" + rest, [Ident(VDomain)], rest)
  {
    SomeNames();
    ReadsName(lex, "Domain", VDomain, rest);
  }

  /** `token` and one space. */
  lemma ReadsSpaced(lex: Lexer, s: string, t: Token, rest: string)
    requires IsLexer(lex) && Reads(lex, s, [t], " " + rest)
    ensures Reads(lex, s, [t], rest)
  {
    ReadsOn(lex, s, [t], " " + rest, [], rest);
    assert [t] + [] == [t];
  }

  lemma ReadsEqHead(lex: Lexer, rest: string)
    requires IsLexer(lex)
    ensures Reads(lex, "Domain == " + rest, [Ident(VDomain), Equals], rest)
  {
    var s := "==" + (" " + rest);
    assert Reads(lex, s, [Equals], " " + rest);
    ReadsSpaced(lex, s, Equals, rest);
    ReadsDomain(lex, " " + s);
    ReadsSpaced(lex, "Domain" + (" " + s), Ident(VDomain), s);
    ReadsOn(lex, "Domain" + (" " + s), [Ident(VDomain)], s, [Equals], rest);
    assert "Domain == " + rest == "Domain" + (" " + s);
    assert [Ident(VDomain)] + [Equals] == [Ident(VDomain), Equals];
  }

  lemma ReadsDomainComma(lex: Lexer, rest: string)
    requires IsLexer(lex)
    ensures Reads(lex, "Domain" + ("," + (" " + rest)), [Ident(VDomain), Comma], rest)
  {
    var comma := "," + (" " + rest);
    assert Reads(lex, comma, [Comma], " " + rest);
    ReadsSpaced(lex, comma, Comma, rest);
    ReadsDomain(lex, comma);
    ReadsOn(lex, "Domain" + comma, [Ident(VDomain)], comma, [Comma], rest);
    assert [Ident(VDomain)] + [Comma] == [Ident(VDomain), Comma];
  }

  lemma ReadsSubject(lex: Lexer, rest: string)
    requires IsLexer(lex)
    ensures Reads(lex, "(Domain, " + rest, [LPar, Ident(VDomain), Comma], rest)
  {
    var domain := "Domain" + ("," + (" " + rest));
    ReadsDomainComma(lex, rest);
    assert Reads(lex, "(" + domain, [LPar], domain);
    ReadsOn(lex, "(" + domain, [LPar], domain, [Ident(VDomain), Comma], rest);
    assert "(Domain, " + rest == "(" + domain;
    assert [LPar] + [Ident(VDomain), Comma] == [LPar, Ident(VDomain), Comma];
  }

  lemma ReadsCallHead(lex: Lexer, f: string, name: Name, rest: string)
    requires IsLexer(lex) && IsName(f) && NameOf(f) == Some(name)
    ensures Reads(lex, f + ("(Domain, " + rest), [Ident(name), LPar, Ident(VDomain), Comma], rest)
  {
    var s := "(Domain, " + rest;
    ReadsSubject(lex, rest);
    ReadsName(lex, f, name, s);
    ReadsOn(lex, f + s, [Ident(name)], s, [LPar, Ident(VDomain), Comma], rest);
    assert [Ident(name)] + [LPar, Ident(VDomain), Comma] == [Ident(name), LPar, Ident(VDomain), Comma];
  }

  lemma ReadsEqText(lex: Lexer, x: string, rest: string)
    requires IsLexer(lex)
    ensures Plain(x) ==> Reads(lex, EqText(x, rest), EqTokens(x), rest)
    ensures !Plain(x) ==> Misreads(lex, EqText(x, rest), 2, Lit(x))
  {
    var q := Quoted(x, rest);
    ReadsEqHead(lex, q);
    if Plain(x) {
      ReadsOn(lex, EqText(x, rest), [Ident(VDomain), Equals], q, [Lit(x)], rest);
      assert [Ident(VDomain), Equals] + [Lit(x)] == EqTokens(x);
    } else {
      MisreadsOn(lex, EqText(x, rest), [Ident(VDomain), Equals], q, 0, Lit(x));
    }
  }

  lemma ReadsCallText(lex: Lexer, f: string, name: Name, x: string)
    requires IsLexer(lex) && IsName(f) && NameOf(f) == Some(name)
    ensures Plain(x) ==> Reads(lex, CallText(f, x), CallTokens(name, VDomain, x), "")
    ensures !Plain(x) ==> Misreads(lex, CallText(f, x), 4, Lit(x))
  {
    var q := Quoted(x, ")");
    ReadsCallHead(lex, f, name, q);
    ReadsLastArg(lex, CallText(f, x), name, x);
  }

  lemma ReadsLastArg(lex: Lexer, s: string, name: Name, x: string)
    requires IsLexer(lex) && Reads(lex, s, [Ident(name), LPar, Ident(VDomain), Comma], Quoted(x, ")"))
    ensures Plain(x) ==> Reads(lex, s, CallTokens(name, VDomain, x), "")
    ensures !Plain(x) ==> Misreads(lex, s, 4, Lit(x))
  {
    var q, head := Quoted(x, ")"), [Ident(name), LPar, Ident(VDomain), Comma];
    if Plain(x) {
      ReadsOn(lex, s, head, q, [Lit(x)], ")");
      assert ")" + "" == ")";
      assert Reads(lex, ")" + "", [RPar], "");
      ReadsOn(lex, s, head + [Lit(x)], ")", [RPar], "");
      assert head + [Lit(x)] + [RPar] == CallTokens(name, VDomain, x);
    } else {
      MisreadsOn(lex, s, head, q, 0, Lit(x));
    }
  }

  lemma ReadsOr(lex: Lexer, rest: string)
    requires IsLexer(lex)
    ensures Reads(lex, " || " + rest, [Op(OrOp)], rest)
  {
    var s1 := " " + rest;
    var s2 := "||" + s1;
    assert Reads(lex, " " + s2, [], s2) && Reads(lex, s2, [Op(OrOp)], s1) && Reads(lex, s1, [], rest);
    ReadsOn(lex, " " + s2, [], s2, [Op(OrOp)], s1);
    ReadsOn(lex, " " + s2, [] + [Op(OrOp)], s1, [], rest);
    assert " || " + rest == " " + s2;
    assert [] + [Op(OrOp)] + [] == [Op(OrOp)];
  }

  lemma PlainTail(entry: string)
    requires HasPrefix(entry, "*.")
    ensures Plain(entry) <==> Plain(entry[2..]) && Plain("." + entry[2..])
  {
    var b := entry[2..];
    assert entry == "*." + b;
    assert forall i :: 2 <= i < |entry| ==> entry[i] == b[i - 2];
    assert forall i :: 1 <= i <= |b| ==> ("." + b)[i] == b[i - 1];
    assert entry[0] == '*' && entry[1] == '.';
    if Plain(b) {
      forall i | 0 <= i < |entry| ensures !Special(entry[i]) { }
      forall i | 0 <= i < |"." + b| ensures !Special(("." + b)[i]) { }
    }
  }

  lemma ReadsWildcard(lex: Lexer, b: string)
    requires IsLexer(lex)
    ensures var s := EqText(b, " || " + CallText("DomainEndsWith", "." + b));
            && (Plain(b) && Plain("." + b) ==>
                Reads(lex, s, EqTokens(b) + [Op(OrOp)] + CallTokens(FDomainEndsWith, VDomain, "." + b), ""))
            && (!Plain(b) ==> Misreads(lex, s, 2, Lit(b)))
  {
    var call := CallText("DomainEndsWith", "." + b);
    var or := " || " + call;
    ReadsEqText(lex, b, or);
    if Plain(b) && Plain("." + b) {
      ReadsOr(lex, call);
      ReadsOn(lex, EqText(b, or), EqTokens(b), or, [Op(OrOp)], call);
      SomeNames();
      ReadsCallText(lex, "DomainEndsWith", FDomainEndsWith, "." + b);
      ReadsOn(lex, EqText(b, or), EqTokens(b) + [Op(OrOp)], call, CallTokens(FDomainEndsWith, VDomain, "." + b), "");
    }
  }

  lemma EntryReadsBy(lex: Lexer, entry: string)
    requires IsLexer(lex)
    ensures Plain(entry) ==> Reads(lex, EntryLogic(entry), EntryTokens(entry), "")
    ensures !Plain(entry) ==> exists i: nat :: i < |EntryTokens(entry)| &&
                                               Misreads(lex, EntryLogic(entry), i, EntryTokens(entry)[i])
  {
    SomeNames();
    if HasPrefix(entry, "*.") {
      var b := entry[2..];
      PlainTail(entry);
      ReadsWildcard(lex, b);
      assert EntryTokens(entry)[2] == Lit(b);
    } else if LooksLikeRegex(entry) {
      ReadsCallText(lex, "DomainMatches", FDomainMatches, entry);
      assert EntryTokens(entry)[4] == Lit(entry);
    } else {
      ReadsEqText(lex, entry, "");
      assert EntryTokens(entry)[2] == Lit(entry);
    }
  }

  /** The stored text reads as intended exactly if the entry holds no quote or backslash. */
  lemma EntryReads(entry: string)
    ensures Lex(EntryLogic(entry)) == Some(EntryTokens(entry)) <==> Plain(entry)
  {
    var lex := TheLexer();
    LexIsLexer();
    EntryReadsBy(lex, entry);
    assert lex(EntryLogic(entry)) == Lex(EntryLogic(entry));
    assert EntryTokens(entry) + [] == EntryTokens(entry);
  }

  /** Parsed and evaluated, the tokens mean the entry. */
  lemma EntryTokensMean(inCidr: InCidr, entry: string, q: Query)
    ensures Parse(EntryTokens(entry)) == Some(DomainExpr(entry))
    ensures Eval(inCidr, q, DomainExpr(entry)) == Some(DomainMeans(entry, q.domain))
  {
    DomainEvaluates(inCidr, q, entry);
    if HasPrefix(entry, "*.") {
      var b := entry[2..];
      EqIsAtom(b);
      CallIsAtom(FDomainEndsWith, VDomain, "." + b);
      TwoParse(EqTokens(b), CallTokens(FDomainEndsWith, VDomain, "." + b),
               Eq(Var(VDomain), Str(b)), Call(FDomainEndsWith, [Var(VDomain), Str("." + b)]));
    } else {
      DomainIsAtom(entry);
      AtomParses(DomainTokens(entry), DomainExpr(entry));
    }
  }

  // ---------------------------------------------------------------- in the engine

  predicate Readable(d: Draft<string>) { Lex(d.logic).Some? }

  /** A stored rule as the engine reads it. */
  function AsTokens(d: Draft<string>): Draft<Logic>
  {
    Draft(d.name, if Lex(d.logic).Some? then Lex(d.logic).value else [], d.action, d.actionData, d.enabled, d.sortOrder)
  }

  /** The engine rules made from stored rules: those whose text cannot be read are skipped. */
  function LoadedTexts(lib: Library, ds: seq<Draft<string>>): seq<Compiled>
  {
    Loaded(lib, Collect(ds, Readable, AsTokens))
  }

  /** The rule of a plain entry is accepted, allows, and hits exactly the names the entry
      stands for. */
  lemma EntryAllows(lib: Library, i: int, entry: string, q: Query)
    requires Plain(entry)
    ensures var d := EntryDraft(i, entry);
            && Readable(d) && Accepts(lib, AsTokens(d)) && Compile(AsTokens(d)).action == Allow
            && (Matching(lib, AsTokens(d), q) <==> DomainMeans(entry, q.domain))
  {
    EntryReads(entry);
    EntryTokensMean(lib.inCidr, entry, q);
  }

  /** The body of the loop up to the insert. */
  method Convert(i: int, entry: string) returns (d: Draft<string>)
    ensures d == EntryDraft(i, entry)
    ensures d.action == Allow && d.enabled && d.sortOrder == i
    ensures var title := if !Wildcard(entry) && RegexLike(entry) then "pattern " + entry else entry;
            d.name == "Allow " + title + " (migrated)"
  {
    KindOfEntry(entry);
    var logic, name := ConvertText(entry);
    d := Draft(name, logic, Allow, "", true, i);
  }

  method ConvertText(entry: string) returns (logic: string, name: string)
    ensures logic == EntryLogic(entry) && name == EntryName(entry)
  {
    if HasPrefix(entry, "*.") {
      var baseDomain := entry[2..];
      logic := EqText(baseDomain, " || " + CallText("DomainEndsWith", "." + baseDomain));
      name := "Allow *." + baseDomain + " (migrated)";
      WildcardName(entry);
    } else if LooksLikeRegex(entry) {
      logic := CallText("DomainMatches", entry);
      name := "Allow pattern " + entry + " (migrated)";
      assert "Allow pattern " + entry == "Allow " + ("pattern " + entry);
    } else {
      logic := EqText(entry, "");
      name := "Allow " + entry + " (migrated)";
    }
  }

  lemma WildcardName(entry: string)
    requires HasPrefix(entry, "*.")
    ensures "Allow *." + entry[2..] + " (migrated)" == EntryName(entry)
  {
    assert "*." + entry[2..] == entry;
    assert "Allow *." + entry[2..] == "Allow " + ("*." + entry[2..]);
  }

  // ---------------------------------------------------------------- one boot

  /** The configuration in memory, and its file. */
  class Config {
    var whitelist: seq<string>
    var policyEnabled: bool
    var policyRules: seq<Draft<string>>

    constructor (whitelist: seq<string>, policyEnabled: bool, policyRules: seq<Draft<string>>)
      ensures this.whitelist == whitelist && this.policyEnabled == policyEnabled && this.policyRules == policyRules
    {
      this.whitelist, this.policyEnabled, this.policyRules := whitelist, policyEnabled, policyRules;
    }
  }

  class ConfigFile {
    var whitelist: seq<string>

    constructor (whitelist: seq<string>)
      ensures this.whitelist == whitelist
    {
      this.whitelist := whitelist;
    }
  }

  ghost function DiskOf(store: PolicyStore<string>, file: ConfigFile): Disk<string>
    reads store, file
  {
    Disk(store.Contents(), if SENTINEL in store.markers then store.markers[SENTINEL] else "", file.whitelist != [])
  }

  /** The conversions of the loop, which have no effect of their own. */
  method ConvertAll(whitelist: seq<string>) returns (work: seq<Draft<string>>)
    ensures work == Drafts(whitelist)
  {
    work := [];
    for i := 0 to |whitelist|
      invariant |work| == i && forall j :: 0 <= j < i ==> work[j] == EntryDraft(j, whitelist[j])
    {
      var draft := Convert(i, whitelist[i]);
      work := work + [draft];
    }
  }

  /** migrateWhitelistToPolicies with storage, in a process that has just read `file`. */
  method MigrateWhitelist(cfg: Config, file: ConfigFile, store: PolicyStore<string>, luck: Luck, stamp: string)
    returns (migrated: bool)
    requires cfg.whitelist == file.whitelist
    modifies cfg, file, store
    ensures DiskOf(store, file) == Booted(old(DiskOf(store, file)), Drafts(old(file.whitelist)), luck, stamp)
    ensures file.whitelist == old(file.whitelist) || file.whitelist == []
    ensures cfg.policyRules == old(cfg.policyRules)
    ensures cfg.policyEnabled <==>
              old(cfg.policyEnabled) || (!Idle(old(DiskOf(store, file)), luck) && luck.budget >= |old(cfg.whitelist)|)
    ensures luck.budget >= |old(cfg.whitelist)| ==> cfg.whitelist == []
    ensures migrated <==> |store.rows| > |old(store.rows)| && luck.budget > |old(file.whitelist)| + 1
  {
    migrated := false;
    if |cfg.whitelist| == 0 {
      return;
    }
    if luck.markerRead {
      var marker := store.GetDynamicConfig(SENTINEL);
      if marker != "" {
        cfg.whitelist := [];
        return;
      }
    }
    var n := |cfg.whitelist|;
    var work := ConvertAll(cfg.whitelist);
    var migratedCount, died := InsertWork(store, work, luck);
    if died {
      return;
    }
    cfg.policyEnabled := true;
    cfg.whitelist := [];
    if luck.budget == n {
      return;
    }
    if luck.yamlSaved {
      file.whitelist := [];
    }
    if luck.budget == n + 1 {
      return;
    }
    if luck.markerSaved {
      store.SetDynamicConfig(SENTINEL, stamp);
    }
    return migratedCount > 0;
  }

  /** The same without storage: no sentinel, no unique index, and a YAML rule has no
      sort_order of its own. */
  method MigrateWhitelistInMemory(cfg: Config, file: ConfigFile, yamlSaved: bool) returns (migrated: bool)
    requires cfg.whitelist == file.whitelist
    modifies cfg, file
    ensures migrated <==> old(cfg.whitelist) != []
    ensures cfg.whitelist == [] && (cfg.policyEnabled <==> old(cfg.policyEnabled) || migrated)
    ensures file.whitelist == if yamlSaved then [] else old(file.whitelist)
    ensures cfg.policyRules == old(cfg.policyRules) + Drafts(old(cfg.whitelist))
  {
    if |cfg.whitelist| == 0 {
      return false;
    }
    var added := ConvertAll(cfg.whitelist);
    cfg.policyRules := cfg.policyRules + added;
    cfg.policyEnabled := true;
    cfg.whitelist := [];
    if yamlSaved {
      file.whitelist := [];
    }
    return true;
  }

  // ---------------------------------------------------------------- any number of boots

  /** Distinct entries are new rules under new names. */
  lemma EntriesAreDistinct(t: Table<string>, whitelist: seq<string>)
    requires forall i, j :: 0 <= i < j < |whitelist| ==> whitelist[i] != whitelist[j]
    requires forall i :: 0 <= i < |whitelist| ==> !Taken(t, EntryName(whitelist[i]))
    ensures Distinct(t, Drafts(whitelist))
  {
    forall i, j | 0 <= i < j < |whitelist| ensures Drafts(whitelist)[i].name != Drafts(whitelist)[j].name {
      NameInjective(whitelist[i], whitelist[j]);
    }
  }

  /** With distinct entries the unique index drops none of them. */
  lemma NoEntryDropped(t: Table<string>, whitelist: seq<string>)
    requires forall i, j :: 0 <= i < j < |whitelist| ==> whitelist[i] != whitelist[j]
    requires forall i :: 0 <= i < |whitelist| ==> !Taken(t, EntryName(whitelist[i]))
    ensures CleanResult(t, Drafts(whitelist)).rows == t.rows + NewRows(t.nextId, Drafts(whitelist))
  {
    EntriesAreDistinct(t, whitelist);
    AllInserted(t, Drafts(whitelist));
    CleanInsertsAll(t, Drafts(whitelist));
  }

  /** What the engine does with a query: an enabled ALLOW rule if some entry stands for the
      name, and no rule otherwise. */
  ghost predicate Decides(whitelist: seq<string>, choice: Option<Compiled>, q: Query)
  {
    match choice
    case None => forall i :: 0 <= i < |whitelist| ==> !DomainMeans(whitelist[i], q.domain)
    case Some(r) => r.action == Allow && r.enabled &&
                    exists i :: 0 <= i < |whitelist| && DomainMeans(whitelist[i], q.domain)
  }

  /** However they are ordered, the rules of all entries decide as the whitelist did. */
  lemma RulesDecide(lib: Library, whitelist: seq<string>, ds: seq<Draft<string>>, q: Query)
    requires forall i :: 0 <= i < |whitelist| ==> Plain(whitelist[i])
    requires forall d :: d in ds <==> d in Drafts(whitelist)
    ensures Decides(whitelist, FirstHit(lib, LoadedTexts(lib, ds), q), q)
  {
    var work := Collect(ds, Readable, AsTokens);
    var from := CollectComesFrom(ds, Readable, AsTokens);
    var k := FirstHitOfLoaded(lib, work, q);
    if k < |work| {
      assert ds[from[k]] in ds;
      var i :| 0 <= i < |whitelist| && Drafts(whitelist)[i] == ds[from[k]];
      EntryAllows(lib, i, whitelist[i], q);
    } else {
      forall i | 0 <= i < |whitelist| ensures !DomainMeans(whitelist[i], q.domain) {
        NoRuleNoEntry(lib, whitelist, ds, work, from, q, i);
      }
    }
  }

  lemma NoRuleNoEntry(lib: Library, whitelist: seq<string>, ds: seq<Draft<string>>, work: seq<Draft<Logic>>,
                      from: seq<nat>, q: Query, i: nat)
    requires i < |whitelist| && Plain(whitelist[i]) && Drafts(whitelist)[i] in ds
    requires ComesFrom(work, ds, Readable, AsTokens, from) && MissesNone(ds, Readable, from)
    requires forall k :: 0 <= k < |work| ==> !Matching(lib, work[k], q)
    ensures !DomainMeans(whitelist[i], q.domain)
  {
    EntryAllows(lib, i, whitelist[i], q);
    var j :| 0 <= j < |ds| && ds[j] == Drafts(whitelist)[i];
    assert Readable(ds[j]);
    var k :| 0 <= k < |from| && from[k] == j;
    assert work[k] == AsTokens(ds[j]);
  }

  /** The rules in a list of rows. */
  function TextsIn(rows: seq<Row<string>>): (r: seq<Draft<string>>)
    ensures |r| == |rows| && forall i :: 0 <= i < |rows| ==> r[i] == rows[i].rule
  {
    seq(|rows|, i requires 0 <= i < |rows| => rows[i].rule)
  }

  lemma SortedHoldsRules(t: Table<string>, sorted: seq<Row<string>>, work: seq<Draft<string>>, d: Draft<string>)
    requires OrderedCopy(sorted, t.rows) && RulesOf(t) == Picked(work, Below(|work|))
    ensures d in TextsIn(sorted) <==> d in work
  {
    assert forall r :: r in sorted <==> r in multiset(sorted);
    assert forall r :: r in t.rows <==> r in multiset(t.rows);
    if k :| 0 <= k < |sorted| && sorted[k].rule == d {
      assert sorted[k] in t.rows;
      assert d in Picked(work, Below(|work|));
    }
    if i :| 0 <= i < |work| && work[i] == d {
      assert i in Below(|work|);
      assert d in RulesOf(t);
      var k :| 0 <= k < |t.rows| && t.rows[k].rule == d;
      assert t.rows[k] in sorted;
      var l :| 0 <= l < |sorted| && sorted[l] == t.rows[k];
      assert TextsIn(sorted)[l] == d;
    }
  }

  /** After any run in which every insert was carried out by some boot, the table read back in
      order and loaded into the engine decides every query as the whitelist did. */
  lemma WhitelistIsPreserved(lib: Library, whitelist: seq<string>, first: int, events: seq<Event>,
                             sorted: seq<Row<string>>, q: Query)
    requires forall i, j :: 0 <= i < j < |whitelist| ==> whitelist[i] != whitelist[j]
    requires forall i :: 0 <= i < |whitelist| ==> Plain(whitelist[i])
    requires Below(|whitelist|) <= Delivered(Start(Table([], first)), Drafts(whitelist), events)
    requires OrderedCopy(sorted, Run(Start(Table([], first)), Drafts(whitelist), events).table.rows)
    ensures Decides(whitelist, FirstHit(lib, LoadedTexts(lib, TextsIn(sorted)), q), q)
  {
    var t: Table<string>, work := Table([], first), Drafts(whitelist);
    EntriesAreDistinct(t, whitelist);
    DeliveredRules(t, work, events);
    forall d ensures d in TextsIn(sorted) <==> d in work {
      SortedHoldsRules(Run(Start(t), work, events).table, sorted, work, d);
    }
    RulesDecide(lib, whitelist, TextsIn(sorted), q);
  }

  /** Without storage, the rules appended to an empty policy list do so too. */
  lemma WhitelistInMemory(lib: Library, whitelist: seq<string>, q: Query)
    requires forall i :: 0 <= i < |whitelist| ==> Plain(whitelist[i])
    ensures Decides(whitelist, FirstHit(lib, LoadedTexts(lib, [] + Drafts(whitelist)), q), q)
  {
    assert [] + Drafts(whitelist) == Drafts(whitelist);
    RulesDecide(lib, whitelist, Drafts(whitelist), q);
  }
}
