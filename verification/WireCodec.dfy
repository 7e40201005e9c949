/**
 The connector wire codec: sets and published dataclasses travel as JSON objects tagged with a
 marker key, and a dict that already holds the marker key is escaped as a list of pairs.

 JSON text is a lossless rendering of the `Json` values below, so encoder and decoder are
 connected directly.
 */
module WireCodec {
  import opened Basics

  datatype Scalar = SNone | SBool(b: bool) | SInt(i: int) | SFloat(r: real) | SStr(s: string)

  datatype Key = StrKey(name: string) | OtherKey(id: nat)

  datatype Value =
    | Atom(scalar: Scalar)
    | NonFinite
    | Foreign(id: nat)                              // any type outside the published SPI
    | List(items: seq<Value>)
    | Tuple(items: seq<Value>)
    | Set(elems: set<Value>)
    | FrozenSet(elems: set<Value>)
    | Dict(entries: seq<(Key, Value)>)              // in insertion order
    | Data(name: string, fields: seq<(string, Value)>)

  datatype Json =
    | JAtom(scalar: Scalar)
    | JArray(items: seq<Json>)
    | JObject(members: seq<(string, Json)>)         // in insertion order, names distinct

  const MARKER := "__sanka_wire__"

  // The published dataclasses: wire name to declared field names, in declaration order.
  type Schema = map<string, seq<string>>

  // What `sorted` does to a set: a TypeError, or some arrangement of exactly its elements.
  type Order = set<Value> -> Option<seq<Value>>

  ghost predicate Arranges(s: set<Value>, q: seq<Value>) {
    && (forall i, j :: 0 <= i < j < |q| ==> q[i] != q[j])
    && (forall i :: 0 <= i < |q| ==> q[i] in s)
    && forall x :: x in s ==> x in q
  }

  ghost predicate Sorts(order: Order) {
    forall s :: order(s).Some? ==> Arranges(s, order(s).value)
  }

  ghost predicate Distinct<T(!new)>(q: seq<T>) {
    forall i, j :: 0 <= i < j < |q| ==> q[i] != q[j]
  }

  function Names<T>(members: seq<(string, T)>): (names: seq<string>)
    ensures |names| == |members|
    ensures forall i :: 0 <= i < |members| ==> names[i] == members[i].0
  {
    seq(|members|, i requires 0 <= i < |members| => members[i].0)
  }

  ghost predicate ValidSchema(schema: Schema) {
    forall name :: name in schema ==> Distinct(schema[name])
  }

  // A live Python value: dict keys are distinct, dataclass instances carry their declared
  // fields, and set elements are hashable.
  ghost predicate Live(schema: Schema, v: Value)
    decreases v
  {
    match v
    case Atom(_) => true
    case NonFinite => true
    case Foreign(_) => true
    case List(items) => forall i :: 0 <= i < |items| ==> Live(schema, items[i])
    case Tuple(items) => forall i :: 0 <= i < |items| ==> Live(schema, items[i])
    case Set(elems) => forall e :: e in elems ==> Live(schema, e) && Hashable(e)
    case FrozenSet(elems) => forall e :: e in elems ==> Live(schema, e) && Hashable(e)
    case Dict(entries) =>
      && (forall i, j :: 0 <= i < j < |entries| ==> entries[i].0 != entries[j].0)
      && forall i :: 0 <= i < |entries| ==> Live(schema, entries[i].1)
    case Data(name, fields) =>
      && (name in schema ==> Names(fields) == schema[name])
      && forall i :: 0 <= i < |fields| ==> Live(schema, fields[i].1)
  }

  // Lists, sets and dicts cannot be hashed; tuples and frozen dataclasses hash their parts.
  predicate Hashable(v: Value)
    decreases v
  {
    match v
    case Atom(_) => true
    case NonFinite => true
    case Foreign(_) => true
    case List(_) => false
    case Tuple(items) => forall i :: 0 <= i < |items| ==> Hashable(items[i])
    case Set(_) => false
    case FrozenSet(_) => true
    case Dict(_) => false
    case Data(_, fields) => forall i :: 0 <= i < |fields| ==> Hashable(fields[i].1)
  }

  // -- encode_value and decode_value ----------------------------------------------------------

  ghost function Encode(schema: Schema, order: Order, v: Value): Option<Json>
    requires Sorts(order)
    decreases v, 0
  {
    match v
    case Atom(s) => Some(JAtom(s))
    case NonFinite => None
    case Foreign(_) => None
    case List(items) =>
      var js :- EncodeAll(schema, order, v, items);
      Some(JArray(js))
    case Tuple(items) =>
      var js :- EncodeAll(schema, order, v, items);
      Some(JArray(js))
    case Set(elems) => EncodeSet(schema, order, v, elems)
    case FrozenSet(elems) => EncodeSet(schema, order, v, elems)
    case Dict(entries) =>
      if exists i :: 0 <= i < |entries| && !entries[i].0.StrKey? then None else
      var members :- EncodeFields(schema, order, v, Named(entries));
      if exists i :: 0 <= i < |entries| && entries[i].0.name == MARKER then
        Some(JObject([(MARKER, JAtom(SStr("mapping"))), ("items", JArray(Pairs(members)))]))
      else
        Some(JObject(members))
    case Data(name, fields) =>
      if name !in schema then None else
      var members :- EncodeFields(schema, order, v, fields);
      Some(JObject([(MARKER, JAtom(SStr("dataclass"))), ("name", JAtom(SStr(name))), ("fields", JObject(members))]))
  }

  ghost function EncodeSet(schema: Schema, order: Order, whole: Value, elems: set<Value>): Option<Json>
    requires Sorts(order)
    requires forall e :: e in elems ==> e < whole
    decreases whole, 0, 2
  {
    var items :- order(elems);
    assert forall i :: 0 <= i < |items| ==> items[i] in elems;
    var js :- EncodeAll(schema, order, whole, items);
    Some(JObject([(MARKER, JAtom(SStr("set"))), ("items", JArray(js))]))
  }

  ghost function EncodeAll(schema: Schema, order: Order, whole: Value, items: seq<Value>): (js: Option<seq<Json>>)
    requires Sorts(order)
    requires forall i :: 0 <= i < |items| ==> items[i] < whole
    ensures js.Some? ==> |js.value| == |items| && forall i :: 0 <= i < |items| ==> Encode(schema, order, items[i]) == Some(js.value[i])
    ensures js.None? ==> exists i :: 0 <= i < |items| && Encode(schema, order, items[i]).None?
    decreases whole, 0, 1, |items|
  {
    if items == [] then Some([]) else
    var j := Encode(schema, order, items[0]);
    var rest := EncodeAll(schema, order, whole, items[1..]);
    if j.None? || rest.None? then None else Some([j.value] + rest.value)
  }

  ghost function EncodeFields(schema: Schema, order: Order, whole: Value, fields: seq<(string, Value)>): (ms: Option<seq<(string, Json)>>)
    requires Sorts(order)
    requires forall i :: 0 <= i < |fields| ==> fields[i].1 < whole
    ensures ms.Some? ==> |ms.value| == |fields| && forall i :: 0 <= i < |fields| ==>
                           ms.value[i].0 == fields[i].0 && Encode(schema, order, fields[i].1) == Some(ms.value[i].1)
    ensures ms.None? ==> exists i :: 0 <= i < |fields| && Encode(schema, order, fields[i].1).None?
    decreases whole, 0, 1, |fields|
  {
    if fields == [] then Some([]) else
    var j := Encode(schema, order, fields[0].1);
    var rest := EncodeFields(schema, order, whole, fields[1..]);
    if j.None? || rest.None? then None else Some([(fields[0].0, j.value)] + rest.value)
  }

  function Named(entries: seq<(Key, Value)>): (fields: seq<(string, Value)>)
    requires forall i :: 0 <= i < |entries| ==> entries[i].0.StrKey?
    ensures |fields| == |entries|
    ensures forall i :: 0 <= i < |entries| ==> fields[i] == (entries[i].0.name, entries[i].1)
  {
    seq(|entries|, i requires 0 <= i < |entries| => (entries[i].0.name, entries[i].1))
  }

  function Pairs(members: seq<(string, Json)>): (items: seq<Json>)
    ensures |items| == |members|
    ensures forall i :: 0 <= i < |items| ==> items[i] == JArray([JAtom(SStr(members[i].0)), members[i].1])
  {
    seq(|members|, i requires 0 <= i < |members| => JArray([JAtom(SStr(members[i].0)), members[i].1]))
  }

  // `value.get(name)`: None when absent, which the decoder does not tell apart from a JSON null.
  function Get(members: seq<(string, Json)>, name: string): (j: Json)
    ensures (forall i :: 0 <= i < |members| ==> members[i].0 != name) ==> j == JAtom(SNone)
    ensures j == JAtom(SNone) || exists i :: 0 <= i < |members| && members[i] == (name, j)
  {
    if members == [] then JAtom(SNone)
    else if members[0].0 == name then members[0].1
    else Get(members[1..], name)
  }

  ghost function NameSet<T(!new)>(members: seq<(string, T)>): set<string> {
    set i | 0 <= i < |members| :: members[i].0
  }

  predicate IsPair(j: Json) {
    j.JArray? && |j.items| == 2 && j.items[0].JAtom? && j.items[0].scalar.SStr?
  }

  ghost function Decode(schema: Schema, j: Json): Option<Value>
    decreases j, 0
  {
    match j
    case JAtom(s) => Some(Atom(s))
    case JArray(items) =>
      var vs :- DecodeAll(schema, j, items);
      Some(List(vs))
    case JObject(members) =>
      var marker := Get(members, MARKER);
      if marker == JAtom(SNone) then
        var entries :- DecodeMembers(schema, j, members);
        Some(Dict(Keyed(entries)))
      else if marker == JAtom(SStr("mapping")) && NameSet(members) == {MARKER, "items"} then
        DecodeMapping(schema, j, Get(members, "items"))
      else if marker == JAtom(SStr("set")) && NameSet(members) == {MARKER, "items"} then
        DecodeSet(schema, j, Get(members, "items"))
      else
        DecodeData(schema, j, marker, Get(members, "name"), Get(members, "fields"))
  }

  ghost function DecodeMapping(schema: Schema, whole: Json, items: Json): Option<Value>
    requires items == JAtom(SNone) || items < whole
    decreases whole, 0, 2
  {
    if !items.JArray? || (exists i :: 0 <= i < |items.items| && !IsPair(items.items[i])) then None else
    var members := Unpaired(items.items);
    if !Distinct(Names(members)) then None else
    var entries :- DecodeMembers(schema, whole, members);
    Some(Dict(Keyed(entries)))
  }

  ghost function DecodeSet(schema: Schema, whole: Json, items: Json): Option<Value>
    requires items == JAtom(SNone) || items < whole
    decreases whole, 0, 2
  {
    if !items.JArray? then None else
    var vs :- DecodeAll(schema, whole, items.items);
    if exists i :: 0 <= i < |vs| && !Hashable(vs[i]) then None
    else Some(Set(set i | 0 <= i < |vs| :: vs[i]))
  }

  ghost function DecodeData(schema: Schema, whole: Json, marker: Json, name: Json, fields: Json): Option<Value>
    requires whole.JObject?
    requires fields == JAtom(SNone) || fields < whole
    decreases whole, 0, 2
  {
    if || marker != JAtom(SStr("dataclass"))
       || !name.JAtom? || !name.scalar.SStr? || name.scalar.s !in schema
       || NameSet(whole.members) != {MARKER, "name", "fields"}
       || !fields.JObject?
       || NameSet(fields.members) != (set f | f in schema[name.scalar.s])
    then None else
    var vs :- DecodeMembers(schema, whole, fields.members);
    // keyword arguments: the instance holds its fields in declaration order
    Some(Data(name.scalar.s, Arranged(schema[name.scalar.s], vs)))
  }

  ghost function DecodeAll(schema: Schema, whole: Json, items: seq<Json>): (vs: Option<seq<Value>>)
    requires forall i :: 0 <= i < |items| ==> items[i] < whole
    ensures vs.Some? ==> |vs.value| == |items| && forall i :: 0 <= i < |items| ==> Decode(schema, items[i]) == Some(vs.value[i])
    ensures vs.None? ==> exists i :: 0 <= i < |items| && Decode(schema, items[i]).None?
    decreases whole, 0, 1, |items|
  {
    if items == [] then Some([]) else
    var v := Decode(schema, items[0]);
    var rest := DecodeAll(schema, whole, items[1..]);
    if v.None? || rest.None? then None else Some([v.value] + rest.value)
  }

  ghost function DecodeMembers(schema: Schema, whole: Json, members: seq<(string, Json)>): (vs: Option<seq<(string, Value)>>)
    requires forall i :: 0 <= i < |members| ==> members[i].1 < whole
    ensures vs.Some? ==> |vs.value| == |members| && forall i :: 0 <= i < |members| ==>
                           vs.value[i].0 == members[i].0 && Decode(schema, members[i].1) == Some(vs.value[i].1)
    ensures vs.None? ==> exists i :: 0 <= i < |members| && Decode(schema, members[i].1).None?
    decreases whole, 0, 1, |members|
  {
    if members == [] then Some([]) else
    var v := Decode(schema, members[0].1);
    var rest := DecodeMembers(schema, whole, members[1..]);
    if v.None? || rest.None? then None else Some([(members[0].0, v.value)] + rest.value)
  }

  function Unpaired(items: seq<Json>): (members: seq<(string, Json)>)
    requires forall i :: 0 <= i < |items| ==> IsPair(items[i])
    ensures |members| == |items|
    ensures forall i :: 0 <= i < |items| ==> IsPair(items[i]) && members[i] == (items[i].items[0].scalar.s, items[i].items[1])
    ensures forall i :: 0 <= i < |items| ==> members[i].1 < items[i]
  {
    seq(|items|, i requires 0 <= i < |items| && IsPair(items[i]) => (items[i].items[0].scalar.s, items[i].items[1]))
  }

  function Keyed(members: seq<(string, Value)>): (entries: seq<(Key, Value)>)
    ensures |entries| == |members|
    ensures forall i :: 0 <= i < |members| ==> entries[i] == (StrKey(members[i].0), members[i].1)
  {
    seq(|members|, i requires 0 <= i < |members| => (StrKey(members[i].0), members[i].1))
  }

  function Arranged(names: seq<string>, values: seq<(string, Value)>): (fields: seq<(string, Value)>)
    ensures |fields| == |names|
  {
    seq(|names|, i requires 0 <= i < |names| => (names[i], Lookup(values, names[i])))
  }

  function Lookup(values: seq<(string, Value)>, name: string): (v: Value)
    ensures forall i :: 0 <= i < |values| && values[i].0 == name && Distinct(Names(values)) ==> v == values[i].1
  {
    if values == [] then Atom(SNone)
    else if values[0].0 == name then
      assert forall i :: 0 < i < |values| ==> Names(values)[i] == values[i].0;
      values[0].1
    else
      assert Names(values[1..]) == Names(values)[1..];
      Lookup(values[1..], name)
  }

  // -- The round trip ---------------------------------------------------------------------------

  // What the wire makes of a value: tuples become lists and frozen sets become sets.
  function Norm(v: Value): Value
    decreases v
  {
    match v
    case List(items) => List(seq(|items|, i requires 0 <= i < |items| => Norm(items[i])))
    case Tuple(items) => List(seq(|items|, i requires 0 <= i < |items| => Norm(items[i])))
    case Set(elems) => Set(set e | e in elems :: Norm(e))
    case FrozenSet(elems) => Set(set e | e in elems :: Norm(e))
    case Dict(entries) =>
      Dict(seq(|entries|, i requires 0 <= i < |entries| => (entries[i].0, Norm(entries[i].1))))
    case Data(name, fields) =>
      Data(name, seq(|fields|, i requires 0 <= i < |fields| => (fields[i].0, Norm(fields[i].1))))
    case _ => v
  }

  // No tuple and no frozen set anywhere inside v: everything in it keeps its type on the wire.
  predicate KeepsTypes(v: Value)
    decreases v
  {
    match v
    case Tuple(_) => false
    case FrozenSet(_) => false
    case List(items) => forall i :: 0 <= i < |items| ==> KeepsTypes(items[i])
    case Set(elems) => forall e :: e in elems ==> KeepsTypes(e)
    case Dict(entries) => forall i :: 0 <= i < |entries| ==> KeepsTypes(entries[i].1)
    case Data(_, fields) => forall i :: 0 <= i < |fields| ==> KeepsTypes(fields[i].1)
    case _ => true
  }

  // Every set inside v holds only elements that keep their type; sets of scalars all do.
  predicate SetsTravel(v: Value)
    decreases v
  {
    match v
    case List(items) => forall i :: 0 <= i < |items| ==> SetsTravel(items[i])
    case Tuple(items) => forall i :: 0 <= i < |items| ==> SetsTravel(items[i])
    case Set(elems) => forall e :: e in elems ==> KeepsTypes(e)
    case FrozenSet(elems) => forall e :: e in elems ==> KeepsTypes(e)
    case Dict(entries) => forall i :: 0 <= i < |entries| ==> SetsTravel(entries[i].1)
    case Data(_, fields) => forall i :: 0 <= i < |fields| ==> SetsTravel(fields[i].1)
    case _ => true
  }

  lemma {:induction false} KeptTypesAreFixed(v: Value)
    requires KeepsTypes(v)
    ensures Norm(v) == v
    decreases v
  {
    match v
    case List(items) =>
      forall i | 0 <= i < |items| ensures Norm(items[i]) == items[i] { KeptTypesAreFixed(items[i]); }
      assert Norm(v).items == items;
    case Set(elems) =>
      forall e | e in elems ensures Norm(e) == e { KeptTypesAreFixed(e); }
      assert (set e | e in elems :: Norm(e)) == elems;
    case Dict(entries) =>
      forall i | 0 <= i < |entries| ensures Norm(entries[i].1) == entries[i].1 { KeptTypesAreFixed(entries[i].1); }
      assert Norm(v).entries == entries;
    case Data(_, fields) =>
      forall i | 0 <= i < |fields| ensures Norm(fields[i].1) == fields[i].1 { KeptTypesAreFixed(fields[i].1); }
      assert Norm(v).fields == fields;
    case _ =>
  }

  // For something hashable, what it turns into stays hashable only if nothing in it changed type.
  lemma {:induction false} HashableAfterTheWire(v: Value)
    requires Hashable(v)
    ensures Hashable(Norm(v)) <==> KeepsTypes(v)
    ensures KeepsTypes(v) ==> SetsTravel(v)
    decreases v
  {
    match v
    case Data(_, fields) =>
      forall i | 0 <= i < |fields|
        ensures Hashable(Norm(fields[i].1)) <==> KeepsTypes(fields[i].1)
        ensures KeepsTypes(fields[i].1) ==> SetsTravel(fields[i].1)
      {
        HashableAfterTheWire(fields[i].1);
      }
      assert forall i :: 0 <= i < |fields| ==> Norm(v).fields[i].1 == Norm(fields[i].1);
    case _ =>
  }

  // The meaning of the wire for one value: it decodes to its normal form exactly when its sets travel.
  ghost predicate Travels(schema: Schema, order: Order, v: Value)
    requires Sorts(order)
  {
    Encode(schema, order, v).Some? ==>
      Decode(schema, Encode(schema, order, v).value) == if SetsTravel(v) then Some(Norm(v)) else None
  }

  /** For every value the encoder accepts, decoding gives the value back, with tuples as lists and
      frozen sets as sets, if and only if no set element contains a tuple or a frozen set;
      otherwise the decoder raises. Dicts holding the marker key at any depth are included, so a
      plain dict is never read back as a set or a dataclass. */
  lemma {:induction false} RoundTrip(schema: Schema, order: Order, v: Value)
    requires ValidSchema(schema) && Sorts(order) && Live(schema, v)
    ensures Travels(schema, order, v)
    decreases v
  {
    if Encode(schema, order, v).None? { return; }
    match v
    case Atom(_) =>
    case List(items) =>
      forall i | 0 <= i < |items| ensures Travels(schema, order, items[i]) { RoundTrip(schema, order, items[i]); }
      ItemsTravel(schema, order, v, items);
    case Tuple(items) =>
      forall i | 0 <= i < |items| ensures Travels(schema, order, items[i]) { RoundTrip(schema, order, items[i]); }
      ItemsTravel(schema, order, v, items);
    case Set(elems) =>
      forall e | e in elems ensures Travels(schema, order, e) { RoundTrip(schema, order, e); }
      SetTravels(schema, order, v, elems);
    case FrozenSet(elems) =>
      forall e | e in elems ensures Travels(schema, order, e) { RoundTrip(schema, order, e); }
      SetTravels(schema, order, v, elems);
    case Dict(entries) =>
      forall i | 0 <= i < |entries| ensures Travels(schema, order, entries[i].1) { RoundTrip(schema, order, entries[i].1); }
      DictTravels(schema, order, v);
    case Data(_, fields) =>
      forall i | 0 <= i < |fields| ensures Travels(schema, order, fields[i].1) { RoundTrip(schema, order, fields[i].1); }
      DataTravels(schema, order, v);
  }

  lemma ItemsTravel(schema: Schema, order: Order, v: Value, items: seq<Value>)
    requires Sorts(order) && (v == List(items) || v == Tuple(items))
    requires forall i :: 0 <= i < |items| ==> Travels(schema, order, items[i])
    ensures Travels(schema, order, v)
  {
    if Encode(schema, order, v).Some? {
      var j := Encode(schema, order, v).value;
      var vs := DecodeAll(schema, j, j.items);
      if SetsTravel(v) {
        assert vs.value == Norm(v).items;
      } else {
        var i :| 0 <= i < |items| && !SetsTravel(items[i]);
        assert Travels(schema, order, items[i]);
      }
    }
  }

  function SetObject(js: seq<Json>): Json {
    JObject([(MARKER, JAtom(SStr("set"))), ("items", JArray(js))])
  }

  lemma SetObjectDecodes(schema: Schema, js: seq<Json>)
    requires forall i :: 0 <= i < |js| ==> js[i] < SetObject(js)
    ensures var j := SetObject(js);
            var vs := DecodeAll(schema, j, js);
            Decode(schema, j) ==
              if vs.Some? && forall i :: 0 <= i < |js| ==> Hashable(vs.value[i])
              then Some(Set(set i | 0 <= i < |js| :: vs.value[i])) else None
  {
    var j := SetObject(js);
    TwoNames(j.members);
    assert "set"[0] != "mapping"[0];
    assert Decode(schema, j) == DecodeSet(schema, j, JArray(js));
  }

  // One element after the wire: itself, or something a set cannot hold.
  lemma ElementTravels(schema: Schema, order: Order, e: Value)
    requires Sorts(order) && Hashable(e) && Travels(schema, order, e)
    requires Encode(schema, order, e).Some?
    ensures var back := Decode(schema, Encode(schema, order, e).value);
            if KeepsTypes(e) then back == Some(e) else back.None? || !Hashable(back.value)
  {
    HashableAfterTheWire(e);
    if KeepsTypes(e) { KeptTypesAreFixed(e); }
  }

  lemma EncodedSet(schema: Schema, order: Order, v: Value, elems: set<Value>) returns (items: seq<Value>, js: seq<Json>)
    requires Sorts(order) && (v == Set(elems) || v == FrozenSet(elems))
    requires Encode(schema, order, v).Some?
    ensures Encode(schema, order, v) == Some(SetObject(js))
    ensures Arranges(elems, items) && |js| == |items|
    ensures forall i :: 0 <= i < |items| ==> Encode(schema, order, items[i]) == Some(js[i])
  {
    assert Encode(schema, order, v) == EncodeSet(schema, order, v, elems) by { match v case Set(_) => case FrozenSet(_) => }
    items := order(elems).value;
    assert forall i :: 0 <= i < |items| ==> items[i] in elems;
    js := EncodeAll(schema, order, v, items).value;
  }

  lemma SetTravels(schema: Schema, order: Order, v: Value, elems: set<Value>)
    requires Sorts(order) && (v == Set(elems) || v == FrozenSet(elems))
    requires forall e :: e in elems ==> Hashable(e) && Travels(schema, order, e)
    ensures Travels(schema, order, v)
  {
    if Encode(schema, order, v).Some? {
      var items, js := EncodedSet(schema, order, v, elems);
      forall i | 0 <= i < |js|
        ensures var back := Decode(schema, js[i]);
                if KeepsTypes(items[i]) then back == Some(items[i]) else back.None? || !Hashable(back.value)
      {
        ElementTravels(schema, order, items[i]);
      }
      SetOfTravelled(schema, elems, items, js);
      NormalSet(v, elems);
    }
  }

  lemma NormalSet(v: Value, elems: set<Value>)
    requires v == Set(elems) || v == FrozenSet(elems)
    requires forall e :: e in elems ==> Hashable(e)
    ensures SetsTravel(v) <==> forall e :: e in elems ==> KeepsTypes(e)
    ensures SetsTravel(v) ==> Norm(v) == Set(elems)
  {
    if SetsTravel(v) {
      forall e | e in elems ensures Norm(e) == e { KeptTypesAreFixed(e); }
      assert (set e | e in elems :: Norm(e)) == elems;
    }
  }

  lemma SetOfTravelled(schema: Schema, elems: set<Value>, items: seq<Value>, js: seq<Json>)
    requires Arranges(elems, items) && |js| == |items|
    requires forall e :: e in elems ==> Hashable(e)
    requires forall i :: 0 <= i < |js| ==>
               var back := Decode(schema, js[i]);
               if KeepsTypes(items[i]) then back == Some(items[i]) else back.None? || !Hashable(back.value)
    ensures Decode(schema, SetObject(js)) == if forall e :: e in elems ==> KeepsTypes(e) then Some(Set(elems)) else None
  {
    var j := SetObject(js);
    forall i | 0 <= i < |js| ensures js[i] < j { assert js[i] < j.members[1].1 < j; }
    SetObjectDecodes(schema, js);
    var vs := DecodeAll(schema, j, js);
    if forall e :: e in elems ==> KeepsTypes(e) {
      assert vs.Some? && vs.value == items;
      assert (set i | 0 <= i < |items| :: items[i]) == elems;
    } else {
      var e :| e in elems && !KeepsTypes(e);
      assert e in items;
      var i :| 0 <= i < |items| && items[i] == e;
    }
  }

  // The two-member objects the encoder tags.
  lemma TwoNames(members: seq<(string, Json)>)
    requires |members| == 2 && members[0].0 == MARKER && members[1].0 == "items"
    ensures NameSet(members) == {MARKER, "items"}
    ensures Get(members, MARKER) == members[0].1 && Get(members, "items") == members[1].1
  {
    assert members[0].0 in NameSet(members) && members[1].0 in NameSet(members);
    assert members[0].0[0] != members[1].0[0];
    assert Get(members[1..], "items") == members[1].1;
  }

  lemma PlainObjectDecodes(schema: Schema, members: seq<(string, Json)>)
    requires forall i :: 0 <= i < |members| ==> members[i].0 != MARKER
    ensures var j := JObject(members);
            var vs := DecodeMembers(schema, j, members);
            Decode(schema, j) == if vs.Some? then Some(Dict(Keyed(vs.value))) else None
  {
    assert Get(members, MARKER) == JAtom(SNone);
  }

  function Escaped(members: seq<(string, Json)>): Json {
    JObject([(MARKER, JAtom(SStr("mapping"))), ("items", JArray(Pairs(members)))])
  }

  lemma PairInside(members: seq<(string, Json)>, i: nat)
    requires i < |members|
    ensures members[i].1 < Escaped(members)
  {
    var j := Escaped(members);
    var items := j.members[1].1;
    assert members[i].1 == items.items[i].items[1];
    assert members[i].1 < items.items[i] < items;
    assert items < j;
  }

  lemma EscapedObjectDecodes(schema: Schema, members: seq<(string, Json)>)
    requires Distinct(Names(members))
    requires forall i :: 0 <= i < |members| ==> members[i].1 < Escaped(members)
    ensures var j := Escaped(members);
            var vs := DecodeMembers(schema, j, members);
            Decode(schema, j) == if vs.Some? then Some(Dict(Keyed(vs.value))) else None
  {
    var j := Escaped(members);
    TwoNames(j.members);
    assert Unpaired(Pairs(members)) == members;
    assert Decode(schema, j) == DecodeMapping(schema, j, JArray(Pairs(members)));
  }

  lemma DictTravels(schema: Schema, order: Order, v: Value)
    requires Sorts(order) && v.Dict? && Live(schema, v)
    requires forall i :: 0 <= i < |v.entries| ==> Travels(schema, order, v.entries[i].1)
    ensures Travels(schema, order, v)
  {
    if Encode(schema, order, v).Some? {
      assert forall i :: 0 <= i < |v.entries| ==> v.entries[i].0.StrKey?;
      var named := Named(v.entries);
      var members := EncodeFields(schema, order, v, named).value;
      DictTravelsAs(schema, order, v, named, members, Encode(schema, order, v).value);
    }
  }

  lemma DictTravelsAs(schema: Schema, order: Order, v: Value, named: seq<(string, Value)>, members: seq<(string, Json)>, j: Json)
    requires Sorts(order) && v.Dict? && Live(schema, v)
    requires (forall i :: 0 <= i < |v.entries| ==> v.entries[i].0.StrKey?) && named == Named(v.entries)
    requires forall i :: 0 <= i < |v.entries| ==> Travels(schema, order, v.entries[i].1)
    requires EncodeFields(schema, order, v, named) == Some(members)
    requires j == if exists k :: 0 <= k < |v.entries| && v.entries[k].0.name == MARKER then Escaped(members) else JObject(members)
    ensures Decode(schema, j) == if SetsTravel(v) then Some(Norm(v)) else None
  {
    DictObjectDecodes(schema, v, named, members, j);
    MembersTravel(schema, order, v, named, j, members);
    DictSets(v, named);
    if SetsTravel(v) { DictNorm(v, named, DecodeMembers(schema, j, members).value); }
  }

  lemma DictNorm(v: Value, named: seq<(string, Value)>, vs: seq<(string, Value)>)
    requires v.Dict? && (forall i :: 0 <= i < |v.entries| ==> v.entries[i].0.StrKey?) && named == Named(v.entries)
    requires |vs| == |named| && forall i :: 0 <= i < |named| ==> vs[i] == (named[i].0, Norm(named[i].1))
    ensures Dict(Keyed(vs)) == Norm(v)
  {
    assert Keyed(vs) == Norm(v).entries;
  }

  lemma DictObjectDecodes(schema: Schema, v: Value, named: seq<(string, Value)>, members: seq<(string, Json)>, j: Json)
    requires v.Dict? && Live(schema, v)
    requires (forall i :: 0 <= i < |v.entries| ==> v.entries[i].0.StrKey?) && named == Named(v.entries)
    requires Names(members) == Names(named)
    requires j == if exists k :: 0 <= k < |v.entries| && v.entries[k].0.name == MARKER then Escaped(members) else JObject(members)
    ensures forall i :: 0 <= i < |members| ==> members[i].1 < j
    ensures var vs := DecodeMembers(schema, j, members);
            Decode(schema, j) == if vs.Some? then Some(Dict(Keyed(vs.value))) else None
  {
    assert forall i :: 0 <= i < |members| ==> members[i].0 == Names(named)[i] == v.entries[i].0.name;
    if exists k :: 0 <= k < |v.entries| && v.entries[k].0.name == MARKER {
      forall i | 0 <= i < |members| ensures members[i].1 < j { PairInside(members, i); }
      forall a, b | 0 <= a < b < |members| ensures Names(members)[a] != Names(members)[b] {
        assert v.entries[a].0 != v.entries[b].0;
      }
      EscapedObjectDecodes(schema, members);
    } else {
      PlainObjectDecodes(schema, members);
    }
  }

  lemma DictSets(v: Value, named: seq<(string, Value)>)
    requires v.Dict? && (forall i :: 0 <= i < |v.entries| ==> v.entries[i].0.StrKey?) && named == Named(v.entries)
    ensures SetsTravel(v) <==> forall i :: 0 <= i < |named| ==> SetsTravel(named[i].1)
  {
    if forall i :: 0 <= i < |named| ==> SetsTravel(named[i].1) {
      forall i | 0 <= i < |v.entries| ensures SetsTravel(v.entries[i].1) { assert named[i].1 == v.entries[i].1; }
    }
  }

  // A run of named members decodes to the normal forms of the values, or one of them raises.
  lemma MembersTravel(schema: Schema, order: Order, v: Value, fields: seq<(string, Value)>, j: Json, members: seq<(string, Json)>)
    requires Sorts(order)
    requires forall i :: 0 <= i < |fields| ==> fields[i].1 < v && Travels(schema, order, fields[i].1)
    requires EncodeFields(schema, order, v, fields) == Some(members)
    requires forall i :: 0 <= i < |members| ==> members[i].1 < j
    ensures var vs := DecodeMembers(schema, j, members);
            if forall i :: 0 <= i < |fields| ==> SetsTravel(fields[i].1) then
              && vs.Some? && |vs.value| == |fields|
              && forall i :: 0 <= i < |fields| ==> vs.value[i] == (fields[i].0, Norm(fields[i].1))
            else vs.None?
  {
    var vs := DecodeMembers(schema, j, members);
    forall i | 0 <= i < |fields|
      ensures Decode(schema, members[i].1) == if SetsTravel(fields[i].1) then Some(Norm(fields[i].1)) else None
    {
      assert Travels(schema, order, fields[i].1);
    }
  }

  function Tagged(name: string, members: seq<(string, Json)>): Json {
    JObject([(MARKER, JAtom(SStr("dataclass"))), ("name", JAtom(SStr(name))), ("fields", JObject(members))])
  }

  lemma ThreeNames(name: string, members: seq<(string, Json)>)
    ensures var ms := Tagged(name, members).members;
            && NameSet(ms) == {MARKER, "name", "fields"}
            && Get(ms, MARKER) == JAtom(SStr("dataclass"))
            && Get(ms, "name") == JAtom(SStr(name)) && Get(ms, "fields") == JObject(members)
  {
    var ms := Tagged(name, members).members;
    assert MARKER[0] != "name"[0] && MARKER[0] != "fields"[0] && "name"[0] != "fields"[0];
    assert Get(ms[1..][1..], "fields") == JObject(members);
    assert Get(ms[1..], "fields") == JObject(members) && Get(ms[1..], "name") == JAtom(SStr(name));
    assert ms[0].0 in NameSet(ms) && ms[1].0 in NameSet(ms) && ms[2].0 in NameSet(ms);
  }

  lemma TaggedObjectDecodes(schema: Schema, name: string, members: seq<(string, Json)>)
    requires name in schema && Names(members) == schema[name]
    requires forall i :: 0 <= i < |members| ==> members[i].1 < Tagged(name, members)
    ensures var j := Tagged(name, members);
            var vs := DecodeMembers(schema, j, members);
            Decode(schema, j) == if vs.Some? then Some(Data(name, Arranged(schema[name], vs.value))) else None
  {
    var j := Tagged(name, members);
    ThreeNames(name, members);
    assert NameSet(members) == (set f | f in schema[name]) by {
      forall i | 0 <= i < |members| ensures members[i].0 in schema[name] && schema[name][i] in NameSet(members) {
        assert Names(members)[i] == members[i].0;
      }
    }
    assert JAtom(SStr("dataclass")).scalar.s[0] != "mapping"[0] && "dataclass"[0] != "set"[0];
    assert Decode(schema, j) == DecodeData(schema, j, JAtom(SStr("dataclass")), JAtom(SStr(name)), JObject(members));
  }

  lemma DataTravels(schema: Schema, order: Order, v: Value)
    requires ValidSchema(schema) && Sorts(order) && v.Data? && Live(schema, v)
    requires forall i :: 0 <= i < |v.fields| ==> Travels(schema, order, v.fields[i].1)
    ensures Travels(schema, order, v)
  {
    if Encode(schema, order, v).Some? {
      var members := EncodeFields(schema, order, v, v.fields).value;
      var j := Tagged(v.name, members);
      assert Encode(schema, order, v) == Some(j);
      assert Names(members) == Names(v.fields);
      forall i | 0 <= i < |members| ensures members[i].1 < j {
        assert members[i].1 < JObject(members);
        assert JObject(members) == j.members[2].1 < j;
      }
      TaggedObjectDecodes(schema, v.name, members);
      MembersTravel(schema, order, v, v.fields, j, members);
      var vs := DecodeMembers(schema, j, members);
      if SetsTravel(v) {
        assert Names(vs.value) == schema[v.name];
        assert Arranged(schema[v.name], vs.value) == Norm(v).fields;
      }
    }
  }

  /** Sets of scalars are always safe, whatever surrounds them. */
  lemma {:induction false} ScalarSetsTravel(v: Value)
    requires ScalarSets(v)
    ensures SetsTravel(v)
    decreases v
  {
    match v
    case List(items) => forall i | 0 <= i < |items| ensures SetsTravel(items[i]) { ScalarSetsTravel(items[i]); }
    case Tuple(items) => forall i | 0 <= i < |items| ensures SetsTravel(items[i]) { ScalarSetsTravel(items[i]); }
    case Dict(entries) => forall i | 0 <= i < |entries| ensures SetsTravel(entries[i].1) { ScalarSetsTravel(entries[i].1); }
    case Data(_, fields) => forall i | 0 <= i < |fields| ensures SetsTravel(fields[i].1) { ScalarSetsTravel(fields[i].1); }
    case _ =>
  }

  predicate ScalarSets(v: Value)
    decreases v
  {
    match v
    case List(items) => forall i :: 0 <= i < |items| ==> ScalarSets(items[i])
    case Tuple(items) => forall i :: 0 <= i < |items| ==> ScalarSets(items[i])
    case Set(elems) => forall e :: e in elems ==> e.Atom?
    case FrozenSet(elems) => forall e :: e in elems ==> e.Atom?
    case Dict(entries) => forall i :: 0 <= i < |entries| ==> ScalarSets(entries[i].1)
    case Data(_, fields) => forall i :: 0 <= i < |fields| ==> ScalarSets(fields[i].1)
    case _ => true
  }

  /** The failing family has members: a set of one tuple is encoded, and then refused by the decoder. */
  lemma SetOfTuplesIsLost(schema: Schema)
    ensures var v := Set({Tuple([Atom(SInt(1))])});
            exists order: Order ::
              && Sorts(order)
              && Encode(schema, order, v).Some?
              && Decode(schema, Encode(schema, order, v).value).None?
  {
    var e := Tuple([Atom(SInt(1))]);
    var v := Set({e});
    var order: Order := s => if s == {e} then Some([e]) else None;
    assert Sorts(order);
    assert EncodeAll(schema, order, e, e.items).Some?;
    assert Encode(schema, order, e).Some?;
    assert order({e}) == Some([e]);
    assert EncodeAll(schema, order, v, [e]).Some?;
    assert !KeepsTypes(e);
    forall x | x in v.elems ensures Hashable(x) && Travels(schema, order, x) {
      ItemsTravel(schema, order, x, x.items);
    }
    SetTravels(schema, order, v, {e});
  }
}
