/** The policy engine's rule list and first-match evaluation (pkg/policy/engine.go). */
module PolicyEngine {
  import opened Wrappers
  import opened PolicyStore
  import opened PolicyExpr
  import Upstreams

  type Logic = seq<Token>

  /** Library calls the engine makes. */
  datatype Library = Library(split: Upstreams.Splitter, inCidr: InCidr, isIP: string -> bool)

  datatype Compiled = Compiled(name: string, program: Expr, action: Action, actionData: string, enabled: bool)

  /** validateAction */
  predicate ValidAction(lib: Library, action: Action, data: string)
  {
    match action
    case Block => true
    case Allow => true
    case Redirect => data != "" && lib.isIP(data)
    case Forward => var us := Upstreams.Parsed(lib.split, data); us.Some? && us.value != []
    case Unsupported(_) => false
  }

  predicate Accepts(lib: Library, d: Draft<Logic>)
  {
    ValidAction(lib, d.action, d.actionData) && Parse(d.logic).Some?
  }

  function Compile(d: Draft<Logic>): Compiled
    requires Parse(d.logic).Some?
  {
    Compiled(d.name, Parse(d.logic).value, d.action, d.actionData, d.enabled)
  }

  predicate Hits(lib: Library, r: Compiled, q: Query)
  {
    r.enabled && Eval(lib.inCidr, q, r.program) == Some(true)
  }

  /** The first enabled rule that evaluates to true; an evaluation error skips the rule. */
  function FirstHit(lib: Library, rules: seq<Compiled>, q: Query): Option<Compiled>
  {
    if rules == [] then None
    else if Hits(lib, rules[0], q) then Some(rules[0])
    else FirstHit(lib, rules[1..], q)
  }

  /** What loading rules into an engine adds: those it does not accept are skipped. */
  function Loaded(lib: Library, ds: seq<Draft<Logic>>): seq<Compiled>
  {
    if ds == [] then []
    else (if Accepts(lib, ds[0]) then [Compile(ds[0])] else []) + Loaded(lib, ds[1..])
  }

  /** The rules in a list of rows. */
  function RulesIn(rows: seq<Row<Logic>>): (r: seq<Draft<Logic>>)
    ensures |r| == |rows| && forall i :: 0 <= i < |rows| ==> r[i] == rows[i].rule
  {
    seq(|rows|, i requires 0 <= i < |rows| => rows[i].rule)
  }

  predicate Matching(lib: Library, d: Draft<Logic>, q: Query)
  {
    Accepts(lib, d) && Hits(lib, Compile(d), q)
  }

  /** Evaluating a loaded list finds its first accepted matching rule. */
  lemma {:induction false} FirstHitOfLoaded(lib: Library, ds: seq<Draft<Logic>>, q: Query) returns (k: nat)
    ensures k <= |ds| && forall j :: 0 <= j < k ==> !Matching(lib, ds[j], q)
    ensures k == |ds| ==> FirstHit(lib, Loaded(lib, ds), q) == None
    ensures k < |ds| ==> Matching(lib, ds[k], q) && FirstHit(lib, Loaded(lib, ds), q) == Some(Compile(ds[k]))
  {
    k := 0;
    if ds != [] && !Matching(lib, ds[0], q) {
      var rest := Loaded(lib, ds[1..]);
      var l := FirstHitOfLoaded(lib, ds[1..], q);
      k := l + 1;
      if Accepts(lib, ds[0]) {
        assert ([Compile(ds[0])] + rest)[1..] == rest;
      } else {
        assert Loaded(lib, ds) == rest;
      }
      assert forall j :: 1 <= j < |ds| ==> ds[j] == ds[1..][j - 1];
    } else if ds != [] {
      assert Loaded(lib, ds)[0] == Compile(ds[0]);
    }
  }

  /** Which rules are accepted: Block and Allow need nothing but a readable expression. */
  lemma AcceptedActions(lib: Library, d: Draft<Logic>)
    requires Parse(d.logic).Some?
    ensures d.action.Block? || d.action.Allow? ==> Accepts(lib, d)
    ensures d.action.Redirect? ==> (Accepts(lib, d) <==> d.actionData != "" && lib.isIP(d.actionData))
    ensures d.action.Unsupported? ==> !Accepts(lib, d)
    ensures d.action.Forward? ==>
              (Accepts(lib, d) <==> Upstreams.Parsed(lib.split, d.actionData).Some?
                                    && Upstreams.Parsed(lib.split, d.actionData).value != [])
  {
  }

  class Engine {
    const lib: Library
    var rules: seq<Compiled>
    var count: int

    ghost predicate Valid()
      reads this
    {
      count == |rules|
    }

    constructor (lib: Library)
      ensures Valid() && rules == [] && this.lib == lib
    {
      this.lib := lib;
      rules, count := [], 0;
    }

    method AddRule(d: Draft<Logic>) returns (ok: bool)
      requires Valid()
      modifies this
      ensures Valid() && ok == Accepts(lib, d)
      ensures rules == old(rules) + if ok then [Compile(d)] else []
      ensures ok ==> var r := rules[|rules| - 1];
                     && r.name == d.name && r.action == d.action && r.actionData == d.actionData
                     && r.enabled == d.enabled && Parse(d.logic) == Some(r.program)
    {
      if !ValidAction(lib, d.action, d.actionData) || Parse(d.logic).None? {
        return false;
      }
      rules := rules + [Compile(d)];
      count := |rules|;
      return true;
    }

    method Evaluate(q: Query) returns (r: Option<Compiled>)
      ensures r == FirstHit(lib, rules, q)
      ensures r == None ==> forall i :: 0 <= i < |rules| && rules[i].enabled ==>
                              Eval(lib.inCidr, q, rules[i].program) != Some(true)
      ensures r.Some? ==> exists i :: 0 <= i < |rules| && r.value == rules[i] && rules[i].enabled
                                      && Eval(lib.inCidr, q, rules[i].program) == Some(true)
                                      && forall j :: 0 <= j < i && rules[j].enabled ==>
                                           Eval(lib.inCidr, q, rules[j].program) != Some(true)
    {
      for i := 0 to |rules|
        invariant FirstHit(lib, rules, q) == FirstHit(lib, rules[i..], q)
        invariant forall j :: 0 <= j < i && rules[j].enabled ==> Eval(lib.inCidr, q, rules[j].program) != Some(true)
      {
        assert rules[i..][1..] == rules[i + 1..];
        if !rules[i].enabled {
          continue;
        }
        var result := Eval(lib.inCidr, q, rules[i].program);
        if result == None {
          continue;
        }
        if result.value {
          return Some(rules[i]);
        }
      }
      return None;
    }

    /** Removes the first rule of that name. */
    method RemoveRule(name: string) returns (found: bool)
      requires Valid()
      modifies this
      ensures Valid() && (found <==> exists r :: r in old(rules) && r.name == name)
      ensures !found ==> rules == old(rules)
      ensures found ==> exists i :: 0 <= i < |old(rules)| && old(rules)[i].name == name
                                    && (forall j :: 0 <= j < i ==> old(rules)[j].name != name)
                                    && rules == old(rules)[..i] + old(rules)[i + 1..]
    {
      for i := 0 to |rules|
        invariant Valid() && rules == old(rules)
        invariant forall j :: 0 <= j < i ==> rules[j].name != name
      {
        if rules[i].name == name {
          assert rules[i] in rules;
          rules := rules[..i] + rules[i + 1..];
          count := |rules|;
          return true;
        }
      }
      return false;
    }

    /** False is an invalid rule or an index out of bounds. */
    method UpdateRule(index: int, d: Draft<Logic>) returns (ok: bool)
      requires Valid()
      modifies this
      ensures Valid() && ok == (Accepts(lib, d) && 0 <= index < |old(rules)|)
      ensures rules == if ok then old(rules)[index := Compile(d)] else old(rules)
    {
      if !ValidAction(lib, d.action, d.actionData) || Parse(d.logic).None? || index < 0 || index >= |rules| {
        return false;
      }
      rules := rules[index := Compile(d)];
      return true;
    }

    method ReplaceRules(next: seq<Compiled>)
      modifies this
      ensures Valid() && rules == next
    {
      rules, count := next, |next|;
    }

    /** The load loop of the daemon, over stored rows or over the YAML's own rules. */
    method Load(ds: seq<Draft<Logic>>)
      requires Valid()
      modifies this
      ensures Valid() && rules == old(rules) + Loaded(lib, ds)
    {
      assert ds[0..] == ds;
      for i := 0 to |ds|
        invariant Valid() && old(rules) + Loaded(lib, ds) == rules + Loaded(lib, ds[i..])
      {
        assert ds[i..][1..] == ds[i + 1..];
        var _ := AddRule(ds[i]);
      }
    }

    /** rebuildPolicyEngine: compile the stored rules aside, then swap the list.  Whatever the
        engine held, it is then as one freshly loaded from the table. */
    method Rebuild(rows: seq<Row<Logic>>)
      modifies this
      ensures Valid() && rules == Loaded(lib, RulesIn(rows))
    {
      var ds, compiled: seq<Compiled> := RulesIn(rows), [];
      assert ds[0..] == ds;
      for i := 0 to |rows|
        invariant Loaded(lib, ds) == compiled + Loaded(lib, ds[i..])
      {
        assert ds[i..][1..] == ds[i + 1..];
        var d := rows[i].rule;
        if !ValidAction(lib, d.action, d.actionData) || Parse(d.logic).None? {
          continue;
        }
        compiled := compiled + [Compile(d)];
      }
      ReplaceRules(compiled);
    }
  }
}
