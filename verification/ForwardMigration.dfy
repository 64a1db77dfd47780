/** Migrating conditional-forwarding rules into the policy table and evaluating them there
    (cmd/glory-hole/main.go). */
module ForwardMigration {
  import opened Wrappers
  import opened Fields
  import opened PolicyStore
  import opened PolicyExpr
  import opened PolicyEngine
  import opened MigrationRuns
  import opened Lists
  import Upstreams

  const BAND := 1000
  const SENTINEL := "conditional_forwarding_migrated_at"

  /** Priority 0 means the default, 50. */
  function Priority(rule: Rule): int
  {
    if rule.priority == 0 then 50 else rule.priority
  }

  predicate Eligible(rule: Rule)
  {
    rule.enabled && HasMatchers(rule) && rule.upstreams != []
  }

  function RuleName(name: string): string
  {
    "Forward " + name + " (migrated)"
  }

  function DraftOf(rule: Rule): Draft<Logic>
  {
    Draft(RuleName(rule.name), BuildLogic(rule), Forward, Join(rule.upstreams, ','), true,
          BAND + (100 - Priority(rule)))
  }

  lemma RuleNameInjective(a: string, b: string)
    ensures RuleName(a) == RuleName(b) <==> a == b
  {
    if RuleName(a) == RuleName(b) {
      assert a == RuleName(a)[8..8 + |a|];
      assert b == RuleName(b)[8..8 + |b|];
      assert |RuleName(a)| == |a| + 19 && |RuleName(b)| == |b| + 19;
    }
  }

  // ---------------------------------------------------------------- what the loop writes

  /** The policy rules to insert, in configuration order. */
  function Work(rules: seq<Rule>): seq<Draft<Logic>>
  {
    Collect(rules, Eligible, DraftOf)
  }

  ghost function Migrated(t: Table<Logic>, rules: seq<Rule>): Table<Logic>
  {
    InsertedAll(t, Work(rules))
  }

  lemma MigratedStep(t: Table<Logic>, rules: seq<Rule>)
    requires rules != []
    ensures var before, rule := Migrated(t, rules[..|rules| - 1]), rules[|rules| - 1];
            Migrated(t, rules) == if Eligible(rule) then Inserted(before, DraftOf(rule)) else before
  {
    var before := Work(rules[..|rules| - 1]);
    assert before + [] == before;
    assert (before + [DraftOf(rules[|rules| - 1])])[..|before|] == before;
  }

  // ---------------------------------------------------------------- one boot

  /** The configuration in memory, and its file. */
  class Config {
    var enabled: bool
    var rules: seq<Rule>
    var policyEnabled: bool
    var policyRules: seq<Draft<Logic>>

    constructor (enabled: bool, rules: seq<Rule>, policyEnabled: bool, policyRules: seq<Draft<Logic>>)
      ensures this.enabled == enabled && this.rules == rules
      ensures this.policyEnabled == policyEnabled && this.policyRules == policyRules
    {
      this.enabled, this.rules, this.policyEnabled, this.policyRules := enabled, rules, policyEnabled, policyRules;
    }
  }

  class ConfigFile {
    var enabled: bool
    var rules: seq<Rule>

    constructor (enabled: bool, rules: seq<Rule>)
      ensures this.enabled == enabled && this.rules == rules
    {
      this.enabled, this.rules := enabled, rules;
    }
  }

  ghost function DiskOf(store: PolicyStore<Logic>, file: ConfigFile): Disk<Logic>
    reads store, file
  {
    Disk(store.Contents(), if SENTINEL in store.markers then store.markers[SENTINEL] else "",
         file.enabled && file.rules != [])
  }

  /** The loop body up to the insert: nothing for a rule that is skipped. */
  method Convert(rule: Rule) returns (d: Option<Draft<Logic>>)
    ensures d == if Eligible(rule) then Some(DraftOf(rule)) else None
    ensures d.None? <==>
              !rule.enabled || |rule.domains| + |rule.cidrs| + |rule.queryTypes| == 0 || |rule.upstreams| == 0
    ensures d.Some? ==>
              && d.value.name == "Forward " + rule.name + " (migrated)"
              && d.value.sortOrder == 1100 - (if rule.priority == 0 then 50 else rule.priority)
              && d.value.action == Forward && d.value.enabled
  {
    EmptyLogic(rule);
    if !rule.enabled {
      return None;
    }
    var logic := BuildLogic(rule);
    if logic == [] {
      return None;
    }
    if |rule.upstreams| == 0 {
      return None;
    }
    var prio := rule.priority;
    if prio == 0 {
      prio := 50;
    }
    var sortOrder := BAND + (100 - prio);
    return Some(Draft(RuleName(rule.name), logic, Forward, Join(rule.upstreams, ','), true, sortOrder));
  }

  /** The conversions of the loop, which have no effect of their own. */
  method ConvertAll(rules: seq<Rule>) returns (added: seq<Draft<Logic>>)
    ensures added == Work(rules)
  {
    added := [];
    for i := 0 to |rules|
      invariant added == Work(rules[..i])
    {
      CollectOne(rules[..i], rules[i], Eligible, DraftOf);
      assert rules[..i + 1] == rules[..i] + [rules[i]];
      var draft := Convert(rules[i]);
      if draft.Some? {
        added := added + [draft.value];
      }
    }
    assert rules[..|rules|] == rules;
  }

  /** migrateConditionalForwardingToPolicies with storage, in a process that has just read
      `file`. */
  method MigrateConditionalForwarding(cfg: Config, file: ConfigFile, store: PolicyStore<Logic>,
                                      luck: Luck, stamp: string)
    returns (migrated: bool)
    requires cfg.enabled == file.enabled && cfg.rules == file.rules
    modifies cfg, file, store
    ensures DiskOf(store, file) == Booted(old(DiskOf(store, file)), Work(old(cfg.rules)), luck, stamp)
    ensures (file.enabled == old(file.enabled) && file.rules == old(file.rules)) || (!file.enabled && file.rules == [])
    ensures cfg.policyRules == old(cfg.policyRules)
    ensures cfg.policyEnabled <==>
              old(cfg.policyEnabled) || (!Idle(old(DiskOf(store, file)), luck) && luck.budget >= |Work(old(cfg.rules))|)
    ensures old(cfg.enabled) && luck.budget >= |Work(old(cfg.rules))| && old(cfg.rules) != [] ==>
              cfg.rules == [] && !cfg.enabled
    ensures migrated <==> |store.rows| > |old(store.rows)| && luck.budget > |Work(old(cfg.rules))| + 1
  {
    if !cfg.enabled || |cfg.rules| == 0 {
      return false;
    }
    if luck.markerRead {
      var marker := store.GetDynamicConfig(SENTINEL);
      if marker != "" {
        cfg.rules, cfg.enabled := [], false;
        return false;
      }
    }
    var work := ConvertAll(cfg.rules);
    var migratedCount, died := InsertWork(store, work, luck);
    if died {
      return false;
    }
    cfg.policyEnabled := true;
    cfg.rules, cfg.enabled := [], false;
    var survived := Persist(file, store, luck, luck.budget - |work|, stamp);
    return survived && migratedCount > 0;
  }

  /** The YAML save and the sentinel write, with `left` durable steps to go. */
  method Persist(file: ConfigFile, store: PolicyStore<Logic>, luck: Luck, left: nat, stamp: string)
    returns (survived: bool)
    modifies file, store`markers
    ensures survived <==> left > 1
    ensures if left > 0 && luck.yamlSaved then !file.enabled && file.rules == []
            else file.enabled == old(file.enabled) && file.rules == old(file.rules)
    ensures store.markers ==
            if left > 1 && luck.markerSaved then old(store.markers)[SENTINEL := stamp] else old(store.markers)
  {
    if left == 0 {
      return false;
    }
    if luck.yamlSaved {
      file.enabled, file.rules := false, [];
    }
    if left == 1 {
      return false;
    }
    if luck.markerSaved {
      store.SetDynamicConfig(SENTINEL, stamp);
    }
    return true;
  }

  /** The same without storage: eligible rules go to the end of the configured policies. */
  method MigrateInMemory(cfg: Config, file: ConfigFile, yamlSaved: bool) returns (migrated: bool)
    requires cfg.enabled == file.enabled && cfg.rules == file.rules
    modifies cfg, file
    ensures var idle := !old(cfg.enabled) || old(cfg.rules) == [];
            && cfg.policyRules == old(cfg.policyRules) + (if idle then [] else Work(old(cfg.rules)))
            && (migrated <==> !idle && Work(old(cfg.rules)) != [])
            && (cfg.policyEnabled <==> old(cfg.policyEnabled) || !idle)
            && (cfg.enabled, cfg.rules) == (if idle then (old(cfg.enabled), old(cfg.rules)) else (false, []))
            && (file.enabled, file.rules) ==
               (if idle || !yamlSaved then (old(file.enabled), old(file.rules)) else (false, []))
  {
    if !cfg.enabled || |cfg.rules| == 0 {
      return false;
    }
    var added := ConvertAll(cfg.rules);
    cfg.policyRules := cfg.policyRules + added;
    cfg.policyEnabled := true;
    cfg.rules, cfg.enabled := [], false;
    if yamlSaved {
      file.enabled, file.rules := cfg.enabled, cfg.rules;
    }
    return |added| > 0;
  }

  // ---------------------------------------------------------------- which rules are stored

  /** Rule `i` is migrated: it is eligible and no eligible rule before it has its name. */
  ghost predicate Kept(rules: seq<Rule>, i: nat)
  {
    && i < |rules| && Eligible(rules[i])
    && forall j :: 0 <= j < i && Eligible(rules[j]) ==> rules[j].name != rules[i].name
  }

  /** The migrated rules, in configuration order. */
  ghost function Origins(rules: seq<Rule>): (r: seq<nat>)
    ensures forall k :: 0 <= k < |r| ==> r[k] < |rules|
  {
    if rules == [] then []
    else
      var before, last := Origins(rules[..|rules| - 1]), |rules| - 1;
      if Kept(rules, last) then before + [last] else before
  }

  ghost predicate EligibleName(rules: seq<Rule>, name: string)
  {
    exists j :: 0 <= j < |rules| && Eligible(rules[j]) && rules[j].name == name
  }

  /** The table holds the migrated rules with increasing ids. */
  ghost predicate Holds(t: Table<Logic>, first: int, rules: seq<Rule>, origins: seq<nat>)
  {
    && |t.rows| == |origins| && t.nextId == first + |origins|
    && (forall k :: 0 <= k < |origins| ==>
          origins[k] < |rules| && t.rows[k] == Row(first + k, DraftOf(rules[origins[k]])))
    && (forall k, l :: 0 <= k < l < |origins| ==> origins[k] < origins[l])
  }

  lemma {:induction false} OriginsAreKept(rules: seq<Rule>, i: nat)
    ensures i in Origins(rules) <==> Kept(rules, i)
  {
    if rules != [] {
      var before := rules[..|rules| - 1];
      OriginsAreKept(before, i);
      assert i < |before| ==> (Kept(before, i) <==> Kept(rules, i));
      assert i >= |before| ==> i !in Origins(before);
    }
  }

  lemma TakenMeans(t: Table<Logic>, first: int, rules: seq<Rule>, origins: seq<nat>, name: string)
    requires Holds(t, first, rules, origins)
    requires forall i: nat :: i in origins <==> Kept(rules, i)
    ensures Taken(t, RuleName(name)) <==> EligibleName(rules, name)
  {
    if Taken(t, RuleName(name)) {
      var k :| 0 <= k < |t.rows| && t.rows[k].rule.name == RuleName(name);
      assert origins[k] in origins;
      RuleNameInjective(rules[origins[k]].name, name);
    }
    if EligibleName(rules, name) {
      var i := FirstNamed(rules, name);
      var k :| 0 <= k < |origins| && origins[k] == i;
      assert t.rows[k].rule.name == RuleName(name);
    }
  }

  /** The first eligible rule of a name is a migrated one. */
  lemma {:induction false} FirstNamed(rules: seq<Rule>, name: string) returns (i: nat)
    requires EligibleName(rules, name)
    ensures Kept(rules, i) && rules[i].name == name
  {
    var last := |rules| - 1;
    if EligibleName(rules[..last], name) {
      i := FirstNamed(rules[..last], name);
    } else {
      i := last;
      assert forall j :: 0 <= j < last ==> rules[..last][j] == rules[j];
    }
  }

  lemma {:induction false} MigratedHolds(first: int, rules: seq<Rule>)
    ensures Holds(Migrated(Table([], first), rules), first, rules, Origins(rules))
  {
    if rules != [] {
      var before := rules[..|rules| - 1];
      MigratedHolds(first, before);
      MigratedStep(Table([], first), rules);
      HoldsOneMore(Migrated(Table([], first), before), first, rules);
    }
  }

  /** What is known of the rules so far stays true with one more. */
  lemma HoldsLonger(t: Table<Logic>, first: int, before: seq<Rule>, rules: seq<Rule>, origins: seq<nat>)
    requires before <= rules && Holds(t, first, before, origins)
    ensures Holds(t, first, rules, origins)
  {
    assert forall k :: 0 <= k < |before| ==> before[k] == rules[k];
  }

  lemma HoldsAppended(t: Table<Logic>, first: int, rules: seq<Rule>, origins: seq<nat>, i: nat)
    requires Holds(t, first, rules, origins) && i < |rules| && !Taken(t, DraftOf(rules[i]).name)
    requires forall k :: 0 <= k < |origins| ==> origins[k] < i
    ensures Holds(Inserted(t, DraftOf(rules[i])), first, rules, origins + [i])
  {
  }

  lemma LastIsKept(rules: seq<Rule>)
    requires rules != []
    ensures var last := |rules| - 1;
            Kept(rules, last) <==> Eligible(rules[last]) && !EligibleName(rules[..last], rules[last].name)
  {
    assert forall j :: 0 <= j < |rules| - 1 ==> rules[..|rules| - 1][j] == rules[j];
  }

  lemma HoldsOneMore(t: Table<Logic>, first: int, rules: seq<Rule>)
    requires rules != [] && Holds(t, first, rules[..|rules| - 1], Origins(rules[..|rules| - 1]))
    ensures var rule := rules[|rules| - 1];
            Holds(if Eligible(rule) then Inserted(t, DraftOf(rule)) else t, first, rules, Origins(rules))
  {
    var last := |rules| - 1;
    var before := rules[..last];
    var origins := Origins(before);
    forall i: nat ensures i in origins <==> Kept(before, i) { OriginsAreKept(before, i); }
    TakenMeans(t, first, before, origins, rules[last].name);
    LastIsKept(rules);
    HoldsLonger(t, first, before, rules, origins);
    if Kept(rules, last) {
      HoldsAppended(t, first, rules, origins, last);
    }
  }

  // ---------------------------------------------------------------- which rule is chosen

  /** A migrated rule the engine accepts and that matches the query. */
  ghost predicate Candidate(lib: Library, rules: seq<Rule>, i: nat, q: Query)
  {
    && Kept(rules, i) && ValidAction(lib, Forward, Join(rules[i].upstreams, ','))
    && RuleMatches(lib.inCidr, rules[i], q)
  }

  /** Of the configured priorities, with 0 read as 50, that of rule `i` is larger; or they are
      equal and rule `i` is listed first. */
  ghost predicate Precedes(rules: seq<Rule>, i: nat, j: nat)
    requires i < |rules| && j < |rules|
  {
    var a := if rules[i].priority == 0 then 50 else rules[i].priority;
    var b := if rules[j].priority == 0 then 50 else rules[j].priority;
    a > b || (a == b && i < j)
  }

  /** What the original configuration would choose. */
  ghost predicate Chosen(lib: Library, rules: seq<Rule>, i: nat, q: Query)
  {
    Candidate(lib, rules, i, q) && forall j: nat :: Candidate(lib, rules, j, q) && j != i ==> Precedes(rules, i, j)
  }

  /** The engine rule made from a forwarding rule. */
  ghost predicate StandsFor(r: Compiled, rule: Rule)
  {
    && r.name == RuleName(rule.name) && r.action == Forward && r.enabled
    && r.actionData == Join(rule.upstreams, ',') && Parse(BuildLogic(rule)) == Some(r.program)
  }

  lemma DraftMatches(lib: Library, rule: Rule, q: Query)
    requires Eligible(rule)
    ensures Matching(lib, DraftOf(rule), q) <==>
            ValidAction(lib, Forward, Join(rule.upstreams, ',')) && RuleMatches(lib.inCidr, rule, q)
  {
    LogicMeansRule(lib.inCidr, rule, q);
  }

  /** The row of a candidate. */
  lemma CandidateRow(lib: Library, rules: seq<Rule>, t: Table<Logic>, first: int, i: nat, q: Query) returns (k: nat)
    requires Holds(t, first, rules, Origins(rules)) && Candidate(lib, rules, i, q)
    ensures k < |t.rows| && Origins(rules)[k] == i && Matching(lib, t.rows[k].rule, q)
  {
    OriginsAreKept(rules, i);
    k :| 0 <= k < |Origins(rules)| && Origins(rules)[k] == i;
    DraftMatches(lib, rules[i], q);
  }

  /** A matching row is not before the first matching one. */
  lemma NotBeforeFirst(lib: Library, rows: seq<Row<Logic>>, sorted: seq<Row<Logic>>, row: Row<Logic>, q: Query, k: nat)
    requires OrderedCopy(sorted, rows) && row in rows && Matching(lib, row.rule, q)
    requires k <= |sorted| && forall j :: 0 <= j < k ==> !Matching(lib, sorted[j].rule, q)
    ensures k < |sorted| && !Before(row, sorted[k])
  {
    SameElements(rows, sorted, row);
    var p :| 0 <= p < |sorted| && sorted[p] == row;
  }

  lemma OrderIsPriority(t: Table<Logic>, first: int, rules: seq<Rule>, origins: seq<nat>, k: nat, l: nat)
    requires Holds(t, first, rules, origins) && k < |origins| && l < |origins| && k != l
    ensures Before(t.rows[k], t.rows[l]) <==> Precedes(rules, origins[k], origins[l])
    ensures Before(t.rows[k], t.rows[l]) || Before(t.rows[l], t.rows[k])
  {
    assert k < l ==> origins[k] < origins[l];
    assert l < k ==> origins[l] < origins[k];
  }

  lemma SameElements<T>(a: seq<T>, b: seq<T>, x: T)
    requires multiset(a) == multiset(b) && x in a
    ensures x in b
  {
    assert x in multiset(b);
  }

  /** Evaluation of the loaded table picks, for every query, the migrated matching rule of
      highest priority, first listed on ties, and nothing only if there is none. */
  lemma ChoiceIsPreserved(lib: Library, rules: seq<Rule>, first: int, sorted: seq<Row<Logic>>, q: Query)
    requires OrderedCopy(sorted, Migrated(Table([], first), rules).rows)
    ensures match FirstHit(lib, Loaded(lib, RulesIn(sorted)), q)
            case None => forall i: nat :: !Candidate(lib, rules, i, q)
            case Some(r) => exists i: nat :: Chosen(lib, rules, i, q) && StandsFor(r, rules[i])
  {
    MigratedHolds(first, rules);
    var t := Migrated(Table([], first), rules);
    var k := FirstHitOfLoaded(lib, RulesIn(sorted), q);
    if k == |sorted| {
      forall i: nat ensures !Candidate(lib, rules, i, q) {
        if Candidate(lib, rules, i, q) {
          var l := CandidateRow(lib, rules, t, first, i, q);
          NotBeforeFirst(lib, t.rows, sorted, t.rows[l], q, k);
        }
      }
    } else {
      var i := FirstIsChosen(lib, rules, t, first, sorted, q, k);
    }
  }

  lemma FirstIsChosen(lib: Library, rules: seq<Rule>, t: Table<Logic>, first: int, sorted: seq<Row<Logic>>,
                      q: Query, k: nat) returns (i: nat)
    requires Holds(t, first, rules, Origins(rules)) && OrderedCopy(sorted, t.rows)
    requires k < |sorted| && Matching(lib, sorted[k].rule, q)
    requires forall j :: 0 <= j < k ==> !Matching(lib, sorted[j].rule, q)
    ensures Chosen(lib, rules, i, q) && StandsFor(Compile(sorted[k].rule), rules[i])
  {
    var origins := Origins(rules);
    SameElements(sorted, t.rows, sorted[k]);
    var m :| 0 <= m < |t.rows| && t.rows[m] == sorted[k];
    i := origins[m];
    assert i in origins;
    OriginsAreKept(rules, i);
    DraftMatches(lib, rules[i], q);
    forall j: nat | Candidate(lib, rules, j, q) && j != i ensures Precedes(rules, i, j) {
      var l := CandidateRow(lib, rules, t, first, j, q);
      NotBeforeFirst(lib, t.rows, sorted, t.rows[l], q, k);
      OrderIsPriority(t, first, rules, origins, m, l);
    }
  }

  /** Accepted upstream lists come back as they were written. */
  lemma UpstreamsAreRecovered(lib: Library, rule: Rule)
    requires rule.upstreams != []
    requires forall i :: 0 <= i < |rule.upstreams| ==>
               ',' !in rule.upstreams[i] && Upstreams.Stable(lib.split, rule.upstreams[i])
    ensures Upstreams.Parsed(lib.split, DraftOf(rule).actionData) == Some(rule.upstreams)
    ensures ValidAction(lib, Forward, DraftOf(rule).actionData)
  {
    Upstreams.RoundTrip(lib.split, rule.upstreams);
  }

  /** Validated, distinctly named rules whose upstreams are trimmed, comma-free host:port. */
  ghost predicate Clean(lib: Library, rules: seq<Rule>)
  {
    && (forall i, j :: 0 <= i < j < |rules| ==> rules[i].name != rules[j].name)
    && (forall i :: 0 <= i < |rules| ==> CleanRule(lib, rules[i]))
  }

  ghost predicate CleanRule(lib: Library, rule: Rule)
  {
    && HasMatchers(rule) && rule.upstreams != []
    && forall k :: 0 <= k < |rule.upstreams| ==>
         ',' !in rule.upstreams[k] && Upstreams.Stable(lib.split, rule.upstreams[k])
  }

  /** For clean rules the candidates are exactly the enabled rules that match. */
  lemma CleanCandidates(lib: Library, rules: seq<Rule>, i: nat, q: Query)
    requires Clean(lib, rules) && i < |rules|
    ensures Candidate(lib, rules, i, q) <==> rules[i].enabled && RuleMatches(lib.inCidr, rules[i], q)
  {
    assert CleanRule(lib, rules[i]);
    UpstreamsAreRecovered(lib, rules[i]);
  }

  /** First boot: migrate into an empty table, read it back in order, load the engine.  The
      engine then forwards every query to the upstreams of the enabled matching rule of
      highest priority, first listed on ties, even if the YAML or the sentinel is not saved. */
  method FirstBoot(cfg: Config, file: ConfigFile, lib: Library, luck: Luck, stamp: string) returns (engine: Engine)
    requires cfg.enabled == file.enabled && cfg.rules == file.rules
    requires cfg.enabled && cfg.rules != [] && Clean(lib, cfg.rules)
    requires luck.failing == {} && luck.budget >= |Work(cfg.rules)|
    modifies cfg, file
    ensures fresh(engine) && engine.lib == lib
    ensures forall q :: Forwards(lib, old(cfg.rules), FirstHit(lib, engine.rules, q), q)
  {
    ghost var rules := cfg.rules;
    var store := new PolicyStore<Logic>();
    var _ := MigrateConditionalForwarding(cfg, file, store, luck, stamp);
    AllSurvive(Work(rules), |Work(rules)|);
    assert Work(rules)[..|Work(rules)|] == Work(rules);
    var rows := store.GetPolicyRules();
    engine := new Engine(lib);
    engine.Load(RulesIn(rows));
    assert engine.rules == Loaded(lib, RulesIn(rows));
    forall q ensures Forwards(lib, rules, FirstHit(lib, engine.rules, q), q) {
      FirstBootForwards(lib, rules, rows, q);
    }
  }

  /** `choice` sends `q` where the forwarding rules say. */
  ghost predicate Forwards(lib: Library, rules: seq<Rule>, choice: Option<Compiled>, q: Query)
  {
    match choice
    case None => forall i :: 0 <= i < |rules| && rules[i].enabled ==> !RuleMatches(lib.inCidr, rules[i], q)
    case Some(r) =>
      exists i: nat :: i < |rules| && FirstChoice(lib, rules, i, q) &&
        Upstreams.Parsed(lib.split, r.actionData) == Some(rules[i].upstreams)
  }

  ghost predicate FirstChoice(lib: Library, rules: seq<Rule>, i: nat, q: Query)
    requires i < |rules|
  {
    && rules[i].enabled && RuleMatches(lib.inCidr, rules[i], q)
    && forall j :: 0 <= j < |rules| && j != i && rules[j].enabled && RuleMatches(lib.inCidr, rules[j], q) ==>
         Precedes(rules, i, j)
  }

  lemma FirstBootForwards(lib: Library, rules: seq<Rule>, sorted: seq<Row<Logic>>, q: Query)
    requires Clean(lib, rules) && OrderedCopy(sorted, Migrated(Table([], 1), rules).rows)
    ensures Forwards(lib, rules, FirstHit(lib, Loaded(lib, RulesIn(sorted)), q), q)
  {
    ChoiceIsPreserved(lib, rules, 1, sorted, q);
    forall i: nat | i < |rules|
      ensures Candidate(lib, rules, i, q) <==> rules[i].enabled && RuleMatches(lib.inCidr, rules[i], q)
    {
      CleanCandidates(lib, rules, i, q);
    }
    var choice := FirstHit(lib, Loaded(lib, RulesIn(sorted)), q);
    if choice.Some? {
      var i: nat :| Chosen(lib, rules, i, q) && StandsFor(choice.value, rules[i]);
      assert CleanRule(lib, rules[i]);
      UpstreamsAreRecovered(lib, rules[i]);
      assert FirstChoice(lib, rules, i, q);
    }
  }

  /** Restarts: whatever happened before short of failing inserts, once a boot has got through
      the rules the table read back in order forwards every query as the configuration said,
      and so it does whatever happens later. */
  lemma RestartsForward(lib: Library, rules: seq<Rule>, before: seq<Event>, luck: Luck, stamp: string,
                        later: seq<Event>, sorted: seq<Row<Logic>>, q: Query)
    requires Clean(lib, rules) && NoInsertFails(before) && luck.failing == {}
    requires Completes(Run(Start(Table([], 1)), Work(rules), before), Work(rules), luck)
    requires var d := Booted(Run(Start(Table([], 1)), Work(rules), before), Work(rules), luck, stamp);
             OrderedCopy(sorted, Run(d, Work(rules), later).table.rows)
    ensures Forwards(lib, rules, FirstHit(lib, Loaded(lib, RulesIn(sorted)), q), q)
  {
    Confluence(Table([], 1), Work(rules), before, luck, stamp, later);
    CleanInsertsAll(Table([], 1), Work(rules));
    FirstBootForwards(lib, rules, sorted, q);
  }

  // ---------------------------------------------------------------- without storage

  /** An eligible rule the engine accepts and that matches the query, names aside. */
  ghost predicate Usable(lib: Library, rules: seq<Rule>, i: nat, q: Query)
  {
    && i < |rules| && Eligible(rules[i]) && ValidAction(lib, Forward, Join(rules[i].upstreams, ','))
    && RuleMatches(lib.inCidr, rules[i], q)
  }

  /** Without storage the order of the configuration decides: the first listed usable rule
      wins, whatever its priority. */
  lemma NoStorageFollowsListing(lib: Library, rules: seq<Rule>, q: Query)
    ensures match FirstHit(lib, Loaded(lib, Work(rules)), q)
            case None => forall i: nat :: !Usable(lib, rules, i, q)
            case Some(r) => exists i: nat :: Usable(lib, rules, i, q) && StandsFor(r, rules[i])
                                             && forall j: nat :: Usable(lib, rules, j, q) ==> i <= j
  {
    var from := CollectComesFrom(rules, Eligible, DraftOf);
    var work := Work(rules);
    var k := FirstHitOfLoaded(lib, work, q);
    forall l: nat | l < |from| ensures Matching(lib, work[l], q) <==> Usable(lib, rules, from[l], q) {
      DraftMatches(lib, rules[from[l]], q);
    }
    FirstUsable(lib, rules, from, k, q);
    if k < |from| {
      assert StandsFor(Compile(work[k]), rules[from[k]]);
    }
  }

  lemma FirstUsable(lib: Library, rules: seq<Rule>, from: seq<nat>, k: nat, q: Query)
    requires MissesNone(rules, Eligible, from) && k <= |from|
    requires forall i, j :: 0 <= i < j < |from| ==> from[i] < from[j]
    requires forall l :: 0 <= l < k ==> !Usable(lib, rules, from[l], q)
    ensures k == |from| ==> forall j: nat :: !Usable(lib, rules, j, q)
    ensures k < |from| ==> forall j: nat :: Usable(lib, rules, j, q) ==> from[k] <= j
  {
    forall j: nat | Usable(lib, rules, j, q) ensures k < |from| && from[k] <= j {
      assert Eligible(rules[j]);
      var l :| 0 <= l < |from| && from[l] == j;
    }
  }

  /** So the choice of the first listed usable rule `i` is the one by priority exactly if no
      usable rule has a higher priority. */
  lemma NoStorageKeepsPriority(lib: Library, rules: seq<Rule>, i: nat, q: Query)
    requires Usable(lib, rules, i, q) && forall j: nat :: Usable(lib, rules, j, q) ==> i <= j
    ensures (forall j: nat :: Usable(lib, rules, j, q) && j != i ==> Precedes(rules, i, j)) <==>
            (forall j: nat :: Usable(lib, rules, j, q) ==>
               (if rules[j].priority == 0 then 50 else rules[j].priority) <=
               (if rules[i].priority == 0 then 50 else rules[i].priority))
  {
  }
}
