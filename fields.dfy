/** Per-entity field tables. Each field is either written by the client
    (Updateable) or maintained by the backend (System); only Updateable fields
    may appear in a create or update payload, and a fetch asks for every field. */
module Fields {
  import opened Js
  import opened Seqs

  datatype Visibility = Updateable | System

  datatype FieldDescriptor = FieldDescriptor(name: string, visibility: Visibility)

  /** `table.filter(f => f.visibility === "Updateable").map(f => f.name)` */
  function UpdateableNames(table: seq<FieldDescriptor>): (names: seq<string>)
    ensures |names| <= |table|
  {
    if table == [] then []
    else (if table[0].visibility == Updateable then [table[0].name] else []) + UpdateableNames(table[1..])
  }

  /** `table.map(f => f.name)` */
  function AllNames(table: seq<FieldDescriptor>): (names: seq<string>)
    ensures |names| == |table|
    ensures forall i | 0 <= i < |table| :: names[i] == table[i].name
  {
    seq(|table|, i requires 0 <= i < |table| => table[i].name)
  }

  /** A name is updateable exactly when some Updateable field of the table carries it. */
  lemma {:induction false} UpdateableNamesMembers(table: seq<FieldDescriptor>, n: string)
    ensures n in UpdateableNames(table) <==>
            exists i | 0 <= i < |table| :: table[i].name == n && table[i].visibility == Updateable
  {
    if table != [] {
      UpdateableNamesMembers(table[1..], n);
      if n in UpdateableNames(table[1..]) {
        var i :| 0 <= i < |table[1..]| && table[1..][i].name == n && table[1..][i].visibility == Updateable;
        assert table[i + 1] == table[1..][i];
      }
      if exists i | 0 <= i < |table| :: table[i].name == n && table[i].visibility == Updateable {
        var i :| 0 <= i < |table| && table[i].name == n && table[i].visibility == Updateable;
        if i > 0 { assert table[1..][i - 1] == table[i]; }
      }
    }
  }

  /** The updateable names keep the order of the table. */
  lemma {:induction false} UpdateableNamesInOrder(table: seq<FieldDescriptor>)
    ensures IsSubsequence(UpdateableNames(table), AllNames(table))
  {
    if table != [] {
      UpdateableNamesInOrder(table[1..]);
      var all := AllNames(table);
      assert all[1..] == AllNames(table[1..]);
      var rest := UpdateableNames(table[1..]);
      if table[0].visibility == Updateable {
        assert UpdateableNames(table)[1..] == rest;
      } else {
        assert UpdateableNames(table) == rest;
      }
    }
  }

  /** The payload the services build from `data`: every field of `fields`
      whose value is not `undefined`, copied unchanged (`null` included). */
  function Projection(fields: seq<string>, data: Record): (payload: Record)
    ensures forall k :: k in payload <==> k in fields && Get(data, k) != Undefined
    ensures forall k | k in payload :: k in data && payload[k] == data[k]
  {
    map k | k in fields && k in data && data[k] != Undefined :: data[k]
  }

  /** One more field extends the projection by that field alone, when its value is defined. */
  lemma ProjectionStep(seed: Record, fields: seq<string>, field: string, data: Record)
    ensures Get(data, field) != Undefined ==>
            seed + Projection(fields + [field], data) == (seed + Projection(fields, data))[field := data[field]]
    ensures Get(data, field) == Undefined ==>
            seed + Projection(fields + [field], data) == seed + Projection(fields, data)
  {
  }

  /** The `forEach` loop of the services: start from `seed` and copy every
      field of `fields` whose value in `data` is not `undefined`. */
  method ProjectInto(seed: Record, fields: seq<string>, data: Record) returns (payload: Record)
    ensures payload == seed + Projection(fields, data)
  {
    payload := seed;
    var i := 0;
    while i < |fields|
      invariant 0 <= i <= |fields|
      invariant payload == seed + Projection(fields[..i], data)
    {
      var field := fields[i];
      ProjectionStep(seed, fields[..i], field, data);
      if Get(data, field) != Undefined {
        payload := payload[field := data[field]];
      }
      assert fields[..i + 1] == fields[..i] + [field];
      i := i + 1;
    }
    assert fields[..i] == fields;
  }
}
