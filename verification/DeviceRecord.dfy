/** The annotation an xpumd pod carries: the GPUs its container was given, printed and read back. */
module DeviceRecord {
  import opened Prelude
  import opened SortedStrings

  /** strings.Join with commas */
  function Join(names: seq<string>): string {
    if names == [] then ""
    else if |names| == 1 then names[0]
    else names[0] + "," + Join(names[1..])
  }

  /** strings.Split at commas */
  function Split(value: string): (parts: seq<string>)
    ensures parts != [] && forall p :: p in parts ==> ',' !in p
  {
    if value == "" then [""]
    else
      var rest := Split(value[1..]);
      assert rest[0] in rest;
      if value[0] == ',' then [""] + rest else [[value[0]] + rest[0]] + rest[1..]
  }

  /** A name the record can carry. */
  predicate Plain(name: string) {
    name != "" && ',' !in name
  }

  function Parsed(value: string): set<string> {
    set p | p in Split(value) && p != ""
  }

  method ParseDeviceRecord(value: string) returns (held: set<string>)
    ensures held == Parsed(value)
  {
    held := {};
    var parts := Split(value);
    for i := 0 to |parts|
      invariant held == set p | p in parts[..i] && p != ""
    {
      assert forall p :: p in parts[..i + 1] <==> p in parts[..i] || p == parts[i];
      if parts[i] == "" { continue; }
      held := held + {parts[i]};
    }
    assert parts[..|parts|] == parts;
  }

  function Formatted(names: seq<string>): string {
    Join(Sort(names))
  }

  lemma {:induction false} SplitAtComma(name: string, rest: string)
    requires ',' !in name
    ensures Split(name + "," + rest) == [name] + Split(rest) && Split(name) == [name]
  {
    if name == "" {
      assert ("," + rest)[1..] == rest;
      assert name + "," + rest == "," + rest;
    } else {
      SplitAtComma(name[1..], rest);
      assert (name + "," + rest)[1..] == name[1..] + "," + rest;
      assert [name[0]] + name[1..] == name;
    }
  }

  lemma {:induction false} SplitUndoesJoin(names: seq<string>)
    requires names != [] && forall n :: n in names ==> ',' !in n
    ensures Split(Join(names)) == names
  {
    if |names| == 1 {
      SplitAtComma(names[0], "");
    } else {
      assert forall n :: n in names[1..] ==> n in names;
      SplitUndoesJoin(names[1..]);
      SplitAtComma(names[0], Join(names[1..]));
      assert [names[0]] + names[1..] == names;
    }
  }

  /** Reading a printed record gives the devices back exactly when every name is non-empty and comma-free. */
  lemma RecordRoundTrips(names: seq<string>)
    ensures Parsed(Formatted(names)) == Elems(names) <==> forall n :: n in names ==> Plain(n)
  {
    var sorted := Sort(names);
    forall n ensures n in sorted <==> n in names {
      assert n in multiset(sorted) <==> n in multiset(names);
    }
    if forall n :: n in names ==> Plain(n) {
      if sorted != [] {
        SplitUndoesJoin(sorted);
      }
    } else {
      var n :| n in names && !Plain(n);
      assert n !in Parsed(Formatted(names)) && n in Elems(names);
    }
  }

  /** The record is the same for the same devices in any order, and differs for different devices. */
  lemma RecordDecidesDevices(a: seq<string>, b: seq<string>)
    requires Distinct(a) && Distinct(b) && forall n :: n in a || n in b ==> Plain(n)
    ensures Formatted(a) == Formatted(b) <==> Elems(a) == Elems(b)
  {
    RecordRoundTrips(a);
    RecordRoundTrips(b);
    if Elems(a) == Elems(b) {
      forall n ensures n in a <==> n in b {
        assert n in Elems(a) <==> n in Elems(b);
      }
      SameMembers(a, b);
      SortIgnoresOrder(a, b);
    }
  }
}
