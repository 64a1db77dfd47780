/** The policy_rules and dynamic_config tables (pkg/storage/sqlite_policies.go), with the
    UNIQUE index on the rule name.  `L` is the type of a rule's logic. */
module PolicyStore {
  datatype Action = Block | Allow | Redirect | Forward | Unsupported(text: string)

  datatype Draft<L> = Draft(name: string, logic: L, action: Action, actionData: string, enabled: bool, sortOrder: int)

  datatype Row<L> = Row(id: int, rule: Draft<L>)

  datatype Table<L> = Table(rows: seq<Row<L>>, nextId: int)

  /** How an insert ends: stored, "UNIQUE constraint failed", or any other error. */
  datatype Creation = Created | Duplicate | Failed

  ghost predicate Taken<L>(t: Table<L>, name: string)
  {
    exists k :: 0 <= k < |t.rows| && t.rows[k].rule.name == name
  }

  /** INSERT: the unique index drops a second rule of the same name. */
  ghost function Inserted<L>(t: Table<L>, d: Draft<L>): Table<L>
  {
    if Taken(t, d.name) then t else Table(t.rows + [Row(t.nextId, d)], t.nextId + 1)
  }

  ghost function InsertedAll<L>(t: Table<L>, ds: seq<Draft<L>>): Table<L>
  {
    if ds == [] then t else Inserted(InsertedAll(t, ds[..|ds| - 1]), ds[|ds| - 1])
  }

  lemma StaysTakenByOne<L>(t: Table<L>, d: Draft<L>, name: string)
    ensures Taken(t, name) || d.name == name ==> Taken(Inserted(t, d), name)
  {
    if k :| 0 <= k < |t.rows| && t.rows[k].rule.name == name {
      assert Inserted(t, d).rows[k] == t.rows[k];
    } else if d.name == name {
      assert Inserted(t, d).rows[|t.rows|].rule == d;
    }
  }

  lemma {:induction false} InsertedIsTaken<L>(t: Table<L>, ds: seq<Draft<L>>, i: nat)
    requires i < |ds|
    ensures Taken(InsertedAll(t, ds), ds[i].name)
  {
    var before := ds[..|ds| - 1];
    if i < |before| {
      InsertedIsTaken(t, before, i);
    }
    StaysTakenByOne(InsertedAll(t, before), ds[|ds| - 1], ds[i].name);
  }

  /** Inserting what is there already changes nothing. */
  lemma {:induction false} NothingToInsert<L>(t: Table<L>, ds: seq<Draft<L>>)
    requires forall i :: 0 <= i < |ds| ==> Taken(t, ds[i].name)
    ensures InsertedAll(t, ds) == t
  {
    if ds != [] {
      NothingToInsert(t, ds[..|ds| - 1]);
    }
  }

  function NewRows<L>(first: int, ds: seq<Draft<L>>): (r: seq<Row<L>>)
    ensures |r| == |ds| && forall i :: 0 <= i < |r| ==> r[i] == Row(first + i, ds[i])
  {
    seq(|ds|, i requires 0 <= i < |ds| => Row(first + i, ds[i]))
  }

  lemma NewRowsSnoc<L>(first: int, ds: seq<Draft<L>>)
    requires ds != []
    ensures NewRows(first, ds) == NewRows(first, ds[..|ds| - 1]) + [Row(first + |ds| - 1, ds[|ds| - 1])]
  {
  }

  /** New, distinct names are all stored, in order, with the next ids. */
  lemma {:induction false} AllInserted<L>(t: Table<L>, ds: seq<Draft<L>>)
    requires forall i, j :: 0 <= i < j < |ds| ==> ds[i].name != ds[j].name
    requires forall i :: 0 <= i < |ds| ==> !Taken(t, ds[i].name)
    ensures InsertedAll(t, ds) == Table(t.rows + NewRows(t.nextId, ds), t.nextId + |ds|)
  {
    if ds == [] {
      assert t.rows + NewRows(t.nextId, ds) == t.rows;
    } else {
      var last := |ds| - 1;
      var rows := t.rows + NewRows(t.nextId, ds[..last]);
      AllInserted(t, ds[..last]);
      forall k | 0 <= k < |rows| ensures rows[k].rule.name != ds[last].name {
        if k < |t.rows| { assert rows[k] == t.rows[k]; } else { assert rows[k].rule == ds[..last][k - |t.rows|]; }
      }
      assert !Taken(Table(rows, t.nextId + last), ds[last].name);
      NewRowsSnoc(t.nextId, ds);
      assert t.rows + NewRows(t.nextId, ds) == rows + [Row(t.nextId + last, ds[last])];
    }
  }

  /** Starting the list over after `k` inserts ends where going on would have. */
  lemma {:induction false} StartOver<L>(t: Table<L>, ds: seq<Draft<L>>, k: nat, j: nat)
    requires k <= |ds| && j <= |ds|
    ensures InsertedAll(InsertedAll(t, ds[..k]), ds[..j]) == InsertedAll(t, ds[..if j < k then k else j])
    decreases j
  {
    if j <= k {
      forall i | 0 <= i < |ds[..j]| ensures Taken(InsertedAll(t, ds[..k]), ds[..j][i].name) {
        InsertedIsTaken(t, ds[..k], i);
      }
      NothingToInsert(InsertedAll(t, ds[..k]), ds[..j]);
    } else {
      StartOver(t, ds, k, j - 1);
      assert ds[..j][..j - 1] == ds[..j - 1];
    }
  }

  /** ORDER BY sort_order ASC, id ASC */
  predicate Before<L>(a: Row<L>, b: Row<L>)
  {
    a.rule.sortOrder < b.rule.sortOrder || (a.rule.sortOrder == b.rule.sortOrder && a.id < b.id)
  }

  ghost predicate Ordered<L>(rows: seq<Row<L>>)
  {
    forall i, j :: 0 <= i < j < |rows| ==> !Before(rows[j], rows[i])
  }

  ghost predicate OrderedCopy<L>(sorted: seq<Row<L>>, rows: seq<Row<L>>)
  {
    Ordered(sorted) && multiset(sorted) == multiset(rows)
  }

  /** Where a row goes in an ordered list. */
  method Place<L>(sorted: seq<Row<L>>, row: Row<L>) returns (r: seq<Row<L>>)
    requires Ordered(sorted)
    ensures OrderedCopy(r, sorted + [row])
  {
    var i := |sorted|;
    while i > 0 && Before(row, sorted[i - 1])
      invariant 0 <= i <= |sorted|
      invariant forall j :: i <= j < |sorted| ==> Before(row, sorted[j])
    {
      i := i - 1;
    }
    r := sorted[..i] + [row] + sorted[i..];
    PlacedCopy(sorted, row, i);
    PlacedInOrder(sorted, row, i);
  }

  lemma PlacedCopy<T>(xs: seq<T>, x: T, i: nat)
    requires i <= |xs|
    ensures multiset(xs[..i] + [x] + xs[i..]) == multiset(xs + [x])
  {
    assert xs == xs[..i] + xs[i..];
  }

  lemma PlacedInOrder<L>(sorted: seq<Row<L>>, row: Row<L>, i: nat)
    requires Ordered(sorted) && i <= |sorted| && (i > 0 ==> !Before(row, sorted[i - 1]))
    requires forall j :: i <= j < |sorted| ==> Before(row, sorted[j])
    ensures Ordered(sorted[..i] + [row] + sorted[i..])
  {
    forall j | 0 <= j < i ensures !Before(row, sorted[j]) {
      assert j < i - 1 ==> !Before(sorted[i - 1], sorted[j]);
    }
  }

  class PolicyStore<L> {
    var rows: seq<Row<L>>
    var nextId: int
    var markers: map<string, string>

    ghost function Contents(): Table<L>
      reads this
    {
      Table(rows, nextId)
    }

    constructor ()
      ensures Contents() == Table([], 1) && markers == map[]
    {
      rows, nextId, markers := [], 1, map[];
    }

    /** `broken` stands for any error of the database other than a duplicate name. */
    method CreatePolicyRule(d: Draft<L>, broken: bool) returns (r: Creation)
      modifies this`rows, this`nextId
      ensures r == if broken then Failed else if Taken(old(Contents()), d.name) then Duplicate else Created
      ensures Contents() == if broken then old(Contents()) else Inserted(old(Contents()), d)
      ensures |rows| == |old(rows)| + if r == Created then 1 else 0
    {
      if broken {
        return Failed;
      }
      for k := 0 to |rows|
        invariant forall j :: 0 <= j < k ==> rows[j].rule.name != d.name
        invariant Contents() == old(Contents())
      {
        if rows[k].rule.name == d.name {
          return Duplicate;
        }
      }
      rows, nextId := rows + [Row(nextId, d)], nextId + 1;
      return Created;
    }

    method GetPolicyRules() returns (sorted: seq<Row<L>>)
      ensures OrderedCopy(sorted, rows)
    {
      sorted := [];
      for k := 0 to |rows|
        invariant OrderedCopy(sorted, rows[..k])
      {
        assert rows[..k + 1] == rows[..k] + [rows[k]];
        sorted := Place(sorted, rows[k]);
      }
      assert rows[..|rows|] == rows;
    }

    /** A missing key reads as the empty string. */
    method GetDynamicConfig(key: string) returns (value: string)
      ensures value == if key in markers then markers[key] else ""
    {
      value := if key in markers then markers[key] else "";
    }

    method SetDynamicConfig(key: string, value: string)
      modifies this`markers
      ensures markers == old(markers)[key := value]
    {
      markers := markers[key := value];
    }
  }
}
