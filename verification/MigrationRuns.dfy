/** What the two startup migrations of cmd/glory-hole/main.go share: a list of policy rules
    to insert, a sentinel, a YAML block to drop, and boots that can go wrong anywhere. */
module MigrationRuns {
  import opened PolicyStore

  /** What outlives a boot; `pending`: the block to migrate is still in the YAML file. */
  datatype Disk<L> = Disk(table: Table<L>, marker: string, pending: bool)

  /** How a boot goes: the process dies before its `budget`-th durable step (an insert, the
      YAML save, the sentinel write), the inserts in `failing` fail for a reason other than a
      duplicate name, and reading the sentinel and the two last writes may fail. */
  datatype Luck = Luck(budget: nat, failing: set<nat>, markerRead: bool, yamlSaved: bool, markerSaved: bool)

  predicate Idle<L>(d: Disk<L>, luck: Luck)
  {
    !d.pending || (luck.markerRead && d.marker != "")
  }

  /** How many inserts the boot gets to. */
  function Reached<L>(work: seq<Draft<L>>, luck: Luck): (n: nat)
    ensures n <= |work|
  {
    if luck.budget < |work| then luck.budget else |work|
  }

  /** The first `k` rules but those whose insert fails. */
  function Surviving<L>(work: seq<Draft<L>>, failing: set<nat>, k: nat): seq<Draft<L>>
    requires k <= |work|
  {
    if k == 0 then []
    else Surviving(work, failing, k - 1) + if k - 1 in failing then [] else [work[k - 1]]
  }

  ghost function Booted<L>(d: Disk<L>, work: seq<Draft<L>>, luck: Luck, stamp: string): Disk<L>
  {
    if Idle(d, luck) then d
    else
      Disk(InsertedAll(d.table, Surviving(work, luck.failing, Reached(work, luck))),
           if luck.budget > |work| + 1 && luck.markerSaved then stamp else d.marker,
           !(luck.budget > |work| && luck.yamlSaved))
  }

  /** What can happen: a boot, the loss of the sentinel, the old YAML coming back. */
  datatype Event = Boot(luck: Luck, stamp: string) | LoseMarker | RestoreYaml

  ghost function Step<L>(d: Disk<L>, work: seq<Draft<L>>, e: Event): Disk<L>
  {
    match e
    case Boot(luck, stamp) => Booted(d, work, luck, stamp)
    case LoseMarker => d.(marker := "")
    case RestoreYaml => d.(pending := true)
  }

  ghost function Run<L>(d: Disk<L>, work: seq<Draft<L>>, events: seq<Event>): Disk<L>
  {
    if events == [] then d
    else Step(Run(d, work, events[..|events| - 1]), work, events[|events| - 1])
  }

  function Start<L>(t: Table<L>): Disk<L> { Disk(t, "", true) }

  /** The policy table after one undisturbed migration. */
  ghost function CleanResult<L>(t: Table<L>, work: seq<Draft<L>>): Table<L>
  {
    Booted(Start(t), work, Luck(|work| + 2, {}, true, true, true), "done").table
  }

  lemma {:induction false} AllSurvive<L>(work: seq<Draft<L>>, k: nat)
    requires k <= |work|
    ensures Surviving(work, {}, k) == work[..k]
  {
    if k > 0 {
      AllSurvive(work, k - 1);
    }
  }

  lemma CleanInsertsAll<L>(t: Table<L>, work: seq<Draft<L>>)
    ensures CleanResult(t, work) == InsertedAll(t, work)
  {
    AllSurvive(work, |work|);
    assert work[..|work|] == work;
  }

  // ---------------------------------------------------------------- while every insert works

  ghost predicate NoInsertFails(events: seq<Event>)
  {
    forall i :: 0 <= i < |events| && events[i].Boot? ==> events[i].luck.failing == {}
  }

  /** The first `k` rules have been inserted; all of them if the sentinel is there or the
      YAML is not. */
  ghost predicate Progress<L>(t: Table<L>, work: seq<Draft<L>>, d: Disk<L>, k: nat)
  {
    && k <= |work| && d.table == InsertedAll(t, work[..k])
    && (!d.pending || d.marker != "" ==> k == |work|)
  }

  /** Every insert was attempted. */
  predicate Completes<L>(d: Disk<L>, work: seq<Draft<L>>, luck: Luck)
  {
    Idle(d, luck) || luck.budget >= |work|
  }

  lemma StepKeepsProgress<L>(t: Table<L>, work: seq<Draft<L>>, d: Disk<L>, k: nat, e: Event) returns (l: nat)
    requires Progress(t, work, d, k) && (e.Boot? ==> e.luck.failing == {})
    ensures k <= l && Progress(t, work, Step(d, work, e), l)
    ensures e.Boot? && Completes(d, work, e.luck) ==> l == |work|
  {
    l := k;
    if e.Boot? && !Idle(d, e.luck) {
      var n := Reached(work, e.luck);
      AllSurvive(work, n);
      StartOver(t, work, k, n);
      l := if n < k then k else n;
    }
  }

  lemma {:induction false} RunKeepsProgress<L>(t: Table<L>, work: seq<Draft<L>>, events: seq<Event>) returns (k: nat)
    requires NoInsertFails(events)
    ensures Progress(t, work, Run(Start(t), work, events), k)
  {
    k := 0;
    if events == [] {
      assert work[..0] == [];
    } else {
      var last := |events| - 1;
      k := RunKeepsProgress(t, work, events[..last]);
      k := StepKeepsProgress(t, work, Run(Start(t), work, events[..last]), k, events[last]);
    }
  }

  /** Once every name is taken nothing changes the table, not even failing inserts. */
  lemma {:induction false} CompleteStays<L>(d: Disk<L>, work: seq<Draft<L>>, events: seq<Event>)
    requires forall i :: 0 <= i < |work| ==> Taken(d.table, work[i].name)
    ensures Run(d, work, events).table == d.table
  {
    if events != [] {
      var last := |events| - 1;
      CompleteStays(d, work, events[..last]);
      if events[last].Boot? {
        var luck := events[last].luck;
        SurvivingTaken(d.table, work, luck.failing, Reached(work, luck));
        NothingToInsert(d.table, Surviving(work, luck.failing, Reached(work, luck)));
      }
    }
  }

  lemma {:induction false} SurvivingTaken<L>(t: Table<L>, work: seq<Draft<L>>, failing: set<nat>, k: nat)
    requires k <= |work| && forall i :: 0 <= i < |work| ==> Taken(t, work[i].name)
    ensures forall i :: 0 <= i < |Surviving(work, failing, k)| ==> Taken(t, Surviving(work, failing, k)[i].name)
  {
    if k > 0 {
      SurvivingTaken(t, work, failing, k - 1);
    }
  }

  /** Whatever happened before short of failing inserts, a boot that gets through the list
      leaves the policy table of one clean boot, and nothing that happens later changes it. */
  lemma Confluence<L>(t: Table<L>, work: seq<Draft<L>>, before: seq<Event>, luck: Luck, stamp: string,
                      later: seq<Event>)
    requires NoInsertFails(before) && luck.failing == {}
    requires Completes(Run(Start(t), work, before), work, luck)
    ensures var d := Booted(Run(Start(t), work, before), work, luck, stamp);
            d.table == Run(d, work, later).table == CleanResult(t, work)
  {
    var middle := Run(Start(t), work, before);
    var k := RunKeepsProgress(t, work, before);
    k := StepKeepsProgress(t, work, middle, k, Boot(luck, stamp));
    assert work[..|work|] == work;
    var d := Booted(middle, work, luck, stamp);
    forall i | 0 <= i < |work| ensures Taken(d.table, work[i].name) { InsertedIsTaken(t, work, i); }
    CompleteStays(d, work, later);
    CleanInsertsAll(t, work);
  }

  // ---------------------------------------------------------------- with failing inserts

  /** The rules stored in a table, whatever their ids. */
  ghost function RulesOf<L>(t: Table<L>): set<Draft<L>>
  {
    set k | 0 <= k < |t.rows| :: t.rows[k].rule
  }

  ghost function Picked<L>(work: seq<Draft<L>>, indices: set<nat>): set<Draft<L>>
  {
    set i | i in indices && i < |work| :: work[i]
  }

  /** The indices below `n`. */
  ghost function Below(n: nat): (r: set<nat>)
    ensures forall i: nat :: i in r <==> i < n
  {
    if n == 0 then {} else Below(n - 1) + {n - 1}
  }

  /** The inserts one boot carries out. */
  ghost function Delivers<L>(d: Disk<L>, work: seq<Draft<L>>, luck: Luck): set<nat>
  {
    if Idle(d, luck) then {} else Below(Reached(work, luck)) - luck.failing
  }

  /** The inserts some boot of the run carries out. */
  ghost function Delivered<L>(d: Disk<L>, work: seq<Draft<L>>, events: seq<Event>): set<nat>
  {
    if events == [] then {}
    else
      var last := |events| - 1;
      var before := Delivered(d, work, events[..last]);
      if events[last].Boot? then before + Delivers(Run(d, work, events[..last]), work, events[last].luck) else before
  }

  /** New rules under new names. */
  ghost predicate Distinct<L>(t: Table<L>, work: seq<Draft<L>>)
  {
    && (forall i, j :: 0 <= i < j < |work| ==> work[i].name != work[j].name)
    && (forall i :: 0 <= i < |work| ==> !Taken(t, work[i].name))
  }

  ghost predicate Stores<L>(t: Table<L>, work: seq<Draft<L>>, u: Table<L>, indices: set<nat>)
  {
    RulesOf(u) == RulesOf(t) + Picked(work, indices)
  }

  lemma TakenByRule<L>(t: Table<L>, r: Draft<L>)
    requires r in RulesOf(t)
    ensures Taken(t, r.name)
  {
    var k :| 0 <= k < |t.rows| && t.rows[k].rule == r;
    assert t.rows[k].rule.name == r.name;
  }

  lemma RulesAfterInsert<L>(t: Table<L>, r: Draft<L>)
    requires !Taken(t, r.name)
    ensures RulesOf(Inserted(t, r)) == RulesOf(t) + {r}
  {
    var u := Inserted(t, r);
    assert u.rows[|t.rows|].rule == r;
    forall x ensures x in RulesOf(u) <==> x in RulesOf(t) + {r} {
      if k :| 0 <= k < |t.rows| && t.rows[k].rule == x { assert u.rows[k].rule == x; }
    }
  }

  lemma PickedMore<L>(work: seq<Draft<L>>, indices: set<nat>, i: nat)
    requires i < |work|
    ensures Picked(work, indices + {i}) == Picked(work, indices) + {work[i]}
  {
  }

  /** Inserting rule `i` stores it once. */
  lemma StoreOne<L>(t: Table<L>, work: seq<Draft<L>>, u: Table<L>, indices: set<nat>, i: nat)
    requires Distinct(t, work) && Stores(t, work, u, indices) && i < |work|
    ensures Stores(t, work, Inserted(u, work[i]), indices + {i})
  {
    PickedMore(work, indices, i);
    if Taken(u, work[i].name) {
      var k :| 0 <= k < |u.rows| && u.rows[k].rule.name == work[i].name;
      assert u.rows[k].rule in RulesOf(u);
      if u.rows[k].rule in RulesOf(t) { TakenByRule(t, u.rows[k].rule); }
      assert i in indices;
      assert indices + {i} == indices;
    } else {
      RulesAfterInsert(u, work[i]);
    }
  }

  lemma {:induction false} StoreSurviving<L>(t: Table<L>, work: seq<Draft<L>>, u: Table<L>, indices: set<nat>,
                                                   failing: set<nat>, k: nat)
    requires Distinct(t, work) && Stores(t, work, u, indices) && k <= |work|
    ensures Stores(t, work, InsertedAll(u, Surviving(work, failing, k)),
                   indices + (Below(k) - failing))
  {
    var more := Below(k) - failing;
    if k == 0 {
      assert indices + more == indices;
    } else {
      var last := k - 1;
      var before := Below(last) - failing;
      StoreSurviving(t, work, u, indices, failing, last);
      var s := Surviving(work, failing, last);
      if last in failing {
        assert more == before;
        assert s + [] == s;
      } else {
        StoreOne(t, work, InsertedAll(u, s), indices + before, last);
        assert indices + more == indices + before + {last};
        assert (s + [work[last]])[..|s|] == s;
      }
    }
  }

  /** One more insert of a boot. */
  lemma InsertedSurviving<L>(t: Table<L>, work: seq<Draft<L>>, failing: set<nat>, k: nat)
    requires k < |work|
    ensures var before := InsertedAll(t, Surviving(work, failing, k));
            InsertedAll(t, Surviving(work, failing, k + 1)) ==
            if k in failing then before else Inserted(before, work[k])
  {
    var s := Surviving(work, failing, k);
    assert s + [] == s;
    assert (s + [work[k]])[..|s|] == s;
  }

  /** After every run the table holds exactly the rules some boot delivered. */
  lemma {:induction false} RunStores<L>(t: Table<L>, work: seq<Draft<L>>, events: seq<Event>)
    requires Distinct(t, work)
    ensures Stores(t, work, Run(Start(t), work, events).table, Delivered(Start(t), work, events))
  {
    if events == [] {
      assert Picked(work, {}) == {};
    } else {
      var last := |events| - 1;
      RunStores(t, work, events[..last]);
      var d, done := Run(Start(t), work, events[..last]), Delivered(Start(t), work, events[..last]);
      if events[last].Boot? && !Idle(d, events[last].luck) {
        StoreSurviving(t, work, d.table, done, events[last].luck.failing, Reached(work, events[last].luck));
      } else {
        assert done + {} == done;
      }
    }
  }

  lemma CleanStores<L>(t: Table<L>, work: seq<Draft<L>>)
    requires Distinct(t, work)
    ensures Stores(t, work, CleanResult(t, work), Below(|work|))
  {
    assert Picked(work, {}) == {};
    StoreSurviving(t, work, t, {}, {}, |work|);
    assert {} + (Below(|work|) - {}) == Below(|work|);
  }

  /** A run leaves the rules of a clean boot if, and only if, every insert was carried out by
      some boot, that is, before the sentinel or the emptied YAML stopped the migration. */
  lemma SameRulesIffDelivered<L>(t: Table<L>, work: seq<Draft<L>>, events: seq<Event>)
    requires Distinct(t, work)
    ensures RulesOf(Run(Start(t), work, events).table) == RulesOf(CleanResult(t, work)) <==>
            Below(|work|) <= Delivered(Start(t), work, events)
  {
    var done := Delivered(Start(t), work, events);
    RunStores(t, work, events);
    CleanStores(t, work);
    if Below(|work|) <= done {
      AllDelivered(work, done);
    } else {
      var i :| i in Below(|work|) && i !in done;
      LostRule(t, work, done, i);
      assert work[i] in Picked(work, Below(|work|));
    }
  }

  lemma AllDelivered<L>(work: seq<Draft<L>>, done: set<nat>)
    requires Below(|work|) <= done
    ensures Picked(work, done) == Picked(work, Below(|work|))
  {
    forall r ensures r in Picked(work, done) <==> r in Picked(work, Below(|work|)) {
      if i :| i in done && i < |work| && work[i] == r { assert i in Below(|work|); }
      if i :| i in Below(|work|) && i < |work| && work[i] == r { assert i in done; }
    }
  }

  /** In a table that was empty, those are then all its rules. */
  lemma DeliveredRules<L>(t: Table<L>, work: seq<Draft<L>>, events: seq<Event>)
    requires t.rows == [] && Distinct(t, work) && Below(|work|) <= Delivered(Start(t), work, events)
    ensures RulesOf(Run(Start(t), work, events).table) == Picked(work, Below(|work|))
  {
    RunStores(t, work, events);
    AllDelivered(work, Delivered(Start(t), work, events));
    assert RulesOf(t) == {};
  }

  /** Once the YAML is emptied and not restored, nothing is migrated any more. */
  lemma {:induction false} DrainedStays<L>(d: Disk<L>, work: seq<Draft<L>>, events: seq<Event>)
    requires !d.pending && forall i :: 0 <= i < |events| ==> !events[i].RestoreYaml?
    ensures Run(d, work, events).table == d.table && !Run(d, work, events).pending
  {
    if events != [] {
      DrainedStays(d, work, events[..|events| - 1]);
    }
  }

  /** So a boot that fails to insert rule `i`, yet gets through and saves the YAML, loses it
      for good. */
  lemma FailedInsertIsLost<L>(t: Table<L>, work: seq<Draft<L>>, i: nat, stamp: string, later: seq<Event>)
    requires Distinct(t, work) && i < |work| && forall j :: 0 <= j < |later| ==> !later[j].RestoreYaml?
    ensures var d := Booted(Start(t), work, Luck(|work| + 2, {i}, true, true, true), stamp);
            work[i] !in RulesOf(Run(d, work, later).table) && work[i] in RulesOf(CleanResult(t, work))
  {
    var n := |work|;
    var d := Booted(Start(t), work, Luck(n + 2, {i}, true, true, true), stamp);
    DrainedStays(d, work, later);
    assert Picked(work, {}) == {};
    StoreSurviving(t, work, t, {}, {i}, n);
    CleanStores(t, work);
    LostRule(t, work, {} + (Below(n) - {i}), i);
    assert work[i] in Picked(work, Below(n));
  }

  lemma LostRule<L>(t: Table<L>, work: seq<Draft<L>>, done: set<nat>, i: nat)
    requires Distinct(t, work) && i < |work| && i !in done
    ensures work[i] !in RulesOf(t) + Picked(work, done)
  {
    if work[i] in RulesOf(t) { TakenByRule(t, work[i]); }
  }

  // ---------------------------------------------------------------- the loop both migrations run

  /** Inserts the converted rules in turn; the process dies in front of insert number
      `luck.budget`. */
  method InsertWork<L>(store: PolicyStore<L>, work: seq<Draft<L>>, luck: Luck) returns (migratedCount: nat, died: bool)
    modifies store`rows, store`nextId
    ensures died <==> luck.budget < |work|
    ensures store.Contents() == InsertedAll(old(store.Contents()), Surviving(work, luck.failing, Reached(work, luck)))
    ensures |store.rows| == |old(store.rows)| + migratedCount
  {
    migratedCount, died := 0, false;
    for i := 0 to |work|
      invariant i <= luck.budget
      invariant store.Contents() == InsertedAll(old(store.Contents()), Surviving(work, luck.failing, i))
      invariant |store.rows| == |old(store.rows)| + migratedCount
    {
      if i == luck.budget {
        died := true;
        return;
      }
      InsertedSurviving(old(store.Contents()), work, luck.failing, i);
      var created := store.CreatePolicyRule(work[i], i in luck.failing);
      if created == Created {
        migratedCount := migratedCount + 1;
      }
    }
  }
}
