/** The upstream list of a FORWARD rule (pkg/policy/engine.go), written by joining with
    commas and read back by ParseUpstreams.  `net.SplitHostPort` is a parameter. */
module Upstreams {
  import opened Wrappers
  import opened Text
  import opened Fields
  import opened Lists

  datatype HostPort = HostPort(host: string, port: string)
  type Splitter = string -> Option<HostPort>

  /** host:port with both parts present. */
  predicate Valid(split: Splitter, s: string)
  {
    match split(s)
    case None => false
    case Some(hp) => hp.host != "" && hp.port != ""
  }

  const DEFAULT_PORT := ":53"

  /** What the fields of the list are read as: blank ones are skipped, one bad field is an
      error, a field without a colon gets the default port. */
  function Read(split: Splitter, parts: seq<string>): Option<seq<string>>
  {
    if parts == [] then Some([])
    else
      var part, rest := TrimSpace(parts[0]), Read(split, parts[1..]);
      if part == "" then rest
      else if ':' in part && !Valid(split, part) then None
      else if rest.None? then None
      else Some([if ':' in part then part else part + DEFAULT_PORT] + rest.value)
  }

  /** An empty string is an error too. */
  function Parsed(split: Splitter, data: string): Option<seq<string>>
  {
    if data == "" then None else Read(split, Split(data, ','))
  }

  /** What is read once `done` has been read already. */
  function After(done: seq<string>, rest: Option<seq<string>>): Option<seq<string>>
  {
    if rest.None? then None else Some(done + rest.value)
  }

  lemma AfterNothing(rest: Option<seq<string>>)
    ensures After([], rest) == rest
  {
    assert rest.Some? ==> [] + rest.value == rest.value;
  }

  lemma AfterOne(done: seq<string>, u: string, rest: Option<seq<string>>)
    ensures After(done + [u], rest) == After(done, After([u], rest))
  {
    assert rest.Some? ==> done + [u] + rest.value == done + ([u] + rest.value);
  }

  method ParseUpstreams(split: Splitter, actionData: string) returns (r: Option<seq<string>>)
    ensures r == Parsed(split, actionData)
  {
    if actionData == "" {
      return None;
    }
    var parts := Split(actionData, ',');
    var upstreams: seq<string> := [];
    assert parts[0..] == parts;
    AfterNothing(Read(split, parts));
    for i := 0 to |parts|
      invariant Read(split, parts) == After(upstreams, Read(split, parts[i..]))
    {
      assert parts[i..][1..] == parts[i + 1..];
      var part := TrimSpace(parts[i]);
      if part == "" {
        continue;
      }
      if ':' in part {
        if !Valid(split, part) {
          return None;
        }
        AfterOne(upstreams, part, Read(split, parts[i + 1..]));
        upstreams := upstreams + [part];
      } else {
        AfterOne(upstreams, part + DEFAULT_PORT, Read(split, parts[i + 1..]));
        upstreams := upstreams + [part + DEFAULT_PORT];
      }
    }
    assert parts[|parts|..] == [] && upstreams + [] == upstreams;
    return Some(upstreams);
  }

  // ---------------------------------------------------------------- what is read

  /** A field with something in it. */
  predicate Filled(field: string) { exists i :: 0 <= i < |field| && !Blank(field[i]) }

  /** A field with a colon that is not host:port with both parts present. */
  ghost predicate Bad(split: Splitter, field: string)
  {
    var t := TrimSpace(field);
    ':' in t && !(exists hp :: split(t) == Some(hp) && |hp.host| > 0 && |hp.port| > 0)
  }

  /** The field itself if it has a colon, and with port 53 if not. */
  function WithPort(field: string): string
  {
    var t := TrimSpace(field);
    if exists i :: 0 <= i < |t| && t[i] == ':' then t else t + [':', '5', '3']
  }

  lemma FilledIsNotBlank(field: string)
    ensures Filled(field) <==> TrimSpace(field) != ""
  {
    var t := TrimSpace(field);
    var a, b :| field == a + t + b && AllSpace(a) && AllSpace(b);
    if t != "" {
      assert field[|a|] == t[0];
    } else {
      AllBlank(field, a, b);
    }
  }

  lemma AllBlank(field: string, a: string, b: string)
    requires field == a + "" + b && AllSpace(a) && AllSpace(b)
    ensures !Filled(field)
  {
    forall i | 0 <= i < |field| ensures Blank(field[i]) {
      if i < |a| { assert field[i] == a[i]; } else { assert field[i] == b[i - |a|]; }
    }
  }

  lemma OneField(split: Splitter, field: string)
    ensures var t := TrimSpace(field);
            && (Filled(field) <==> t != "")
            && (Bad(split, field) <==> ':' in t && !Valid(split, t))
            && WithPort(field) == if ':' in t then t else t + DEFAULT_PORT
  {
    FilledIsNotBlank(field);
    PortOfField(field);
    BadField(split, field);
  }

  lemma PortOfField(field: string)
    ensures var t := TrimSpace(field); WithPort(field) == if ':' in t then t else t + DEFAULT_PORT
  {
    assert DEFAULT_PORT == [':', '5', '3'];
  }

  lemma BadField(split: Splitter, field: string)
    ensures var t := TrimSpace(field); Bad(split, field) <==> ':' in t && !Valid(split, t)
  {
    var t := TrimSpace(field);
    if split(t).Some? { assert split(t) == Some(split(t).value); }
  }

  lemma {:induction false} ReadMeans(split: Splitter, parts: seq<string>)
    ensures Read(split, parts) ==
            if exists i :: 0 <= i < |parts| && Bad(split, parts[i]) then None
            else Some(Collect(parts, Filled, WithPort))
  {
    if parts != [] {
      ReadMeans(split, parts[1..]);
      assert parts == [parts[0]] + parts[1..];
      CollectHead(parts[0], parts[1..], Filled, WithPort);
      OneField(split, parts[0]);
      AnyBad(split, parts);
      var rest := Collect(parts[1..], Filled, WithPort);
      assert [] + rest == rest;
    }
  }

  lemma AnyBad(split: Splitter, parts: seq<string>)
    requires parts != []
    ensures (exists i :: 0 <= i < |parts| && Bad(split, parts[i])) <==>
            Bad(split, parts[0]) || exists i :: 0 <= i < |parts[1..]| && Bad(split, parts[1..][i])
  {
    if i :| 0 <= i < |parts| && Bad(split, parts[i]) {
      assert i > 0 ==> parts[1..][i - 1] == parts[i];
    }
    if i :| 0 <= i < |parts[1..]| && Bad(split, parts[1..][i]) {
      assert parts[i + 1] == parts[1..][i];
    }
  }

  /** The list is refused exactly if it is empty or has a bad field; otherwise it is read as
      its filled fields in order, each with its own port or 53. */
  lemma ParsedMeans(split: Splitter, data: string)
    ensures var fields := Split(data, ',');
            if data == "" || exists i :: 0 <= i < |fields| && Bad(split, fields[i])
            then Parsed(split, data) == None
            else Parsed(split, data) == Some(Collect(fields, Filled, WithPort))
  {
    ReadMeans(split, Split(data, ','));
  }

  // ---------------------------------------------------------------- round trip

  /** Written and read back unchanged. */
  predicate Stable(split: Splitter, u: string)
  {
    TrimSpace(u) == u && ':' in u && Valid(split, u)
  }

  lemma {:induction false} TrimKeeps(s: string, c: char)
    requires c in s && !IsSpace(c)
    ensures c in TrimSpace(s)
    decreases |s|
  {
    assert s == [s[0]] + s[1..] == s[..|s| - 1] + [s[|s| - 1]];
    if IsSpace(s[0]) {
      TrimKeeps(s[1..], c);
    } else if IsSpace(s[|s| - 1]) {
      TrimKeeps(s[..|s| - 1], c);
    }
  }

  lemma {:induction false} ReadShape(split: Splitter, parts: seq<string>)
    requires Read(split, parts).Some?
    ensures |Read(split, parts).value| <= |parts|
    ensures forall u :: u in Read(split, parts).value ==> ':' in u
    ensures (forall i :: 0 <= i < |parts| ==> ',' !in parts[i]) ==>
            forall u :: u in Read(split, parts).value ==> ',' !in u
  {
    if parts != [] {
      ReadShape(split, parts[1..]);
      var part := TrimSpace(parts[0]);
      assert ':' in part + DEFAULT_PORT by { assert (part + DEFAULT_PORT)[|part|] == ':'; }
      assert ',' !in parts[0] ==> ',' !in part;
    }
  }

  lemma {:induction false} ReadFixed(split: Splitter, us: seq<string>)
    ensures Read(split, us) == Some(us) <==> forall i :: 0 <= i < |us| ==> Stable(split, us[i])
  {
    if us != [] {
      var u := us[0];
      ReadFixed(split, us[1..]);
      assert us == [u] + us[1..];
      if Read(split, us) == Some(us) {
        ReadShape(split, us);
        assert us[0] in us;
        TrimKeeps(u, ':');
        assert Read(split, us[1..]).Some?;
        ReadShape(split, us[1..]);
        assert Read(split, us[1..]).value == us[1..];
      }
      if forall i :: 0 <= i < |us| ==> Stable(split, us[i]) {
        assert Stable(split, us[0]);
        assert forall i :: 0 <= i < |us[1..]| ==> us[1..][i] == us[i + 1];
      }
    }
  }

  /** Reading back the joined list gives the list itself exactly when it is non-empty and
      every entry is a comma-free, trimmed, valid host:port. */
  lemma RoundTrip(split: Splitter, us: seq<string>)
    ensures Parsed(split, Join(us, ',')) == Some(us) <==>
            us != [] && forall i :: 0 <= i < |us| ==> ',' !in us[i] && Stable(split, us[i])
  {
    SplitJoin(us, ',');
    if Parsed(split, Join(us, ',')) == Some(us) {
      ReadShape(split, Split(Join(us, ','), ','));
      assert forall i :: 0 <= i < |us| ==> us[i] in us;
      assert us != [];
      ReadFixed(split, us);
    }
    if us != [] && forall i :: 0 <= i < |us| ==> ',' !in us[i] && Stable(split, us[i]) {
      ReadFixed(split, us);
      JoinNotEmpty(us);
    }
  }

  lemma JoinNotEmpty(us: seq<string>)
    requires us != [] && us[0] != ""
    ensures Join(us, ',') != ""
  {
  }
}
