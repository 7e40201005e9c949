/**
 What the connector codec sends and what it reads, each said without following the code: a value is
 sent exactly if every part of it may be, and a document is read as a value exactly if it spells it.
 */
module WireForms {
  import opened Basics
  import opened WireCodec

  // The values that a value is made of.
  ghost function Held(v: Value): (held: set<Value>)
    ensures forall c :: c in held ==> c < v
  {
    match v
    case List(items) => set i | 0 <= i < |items| :: items[i]
    case Tuple(items) => set i | 0 <= i < |items| :: items[i]
    case Set(elems) => elems
    case FrozenSet(elems) => elems
    case Dict(entries) => set i | 0 <= i < |entries| :: entries[i].1
    case Data(_, fields) => set i | 0 <= i < |fields| :: fields[i].1
    case _ => {}
  }

  // p is the value itself or inside it at some depth.
  ghost predicate Inside(p: Value, v: Value)
    decreases v
  {
    p == v || exists c :: c in Held(v) && Inside(p, c)
  }

  // -- What is sent -----------------------------------------------------------------------------------

  // Nothing about p itself stands in the way.
  predicate Sendable(schema: Schema, order: Order, p: Value) {
    match p
    case NonFinite => false
    case Foreign(_) => false
    case Set(elems) => order(elems).Some?
    case FrozenSet(elems) => order(elems).Some?
    case Dict(entries) => forall i :: 0 <= i < |entries| ==> entries[i].0.StrKey?
    case Data(name, _) => name in schema
    case _ => true
  }

  ghost predicate AllSendable(schema: Schema, order: Order, v: Value) {
    forall p :: Inside(p, v) ==> Sendable(schema, order, p)
  }

  lemma PartByPart(schema: Schema, order: Order, v: Value)
    ensures AllSendable(schema, order, v) <==> Sendable(schema, order, v) && forall c :: c in Held(v) ==> AllSendable(schema, order, c)
  {
    assert Inside(v, v);
    if AllSendable(schema, order, v) {
      forall c, p | c in Held(v) && Inside(p, c) ensures Sendable(schema, order, p) { assert Inside(p, v); }
    }
  }

  lemma SentPartByPart(schema: Schema, order: Order, v: Value)
    requires Sorts(order)
    ensures Encode(schema, order, v).Some? <==> Sendable(schema, order, v) && forall c :: c in Held(v) ==> Encode(schema, order, c).Some?
  {
    match v
    case List(items) => ListSent(schema, order, v, items);
    case Tuple(items) => ListSent(schema, order, v, items);
    case Set(elems) => SetSent(schema, order, v, elems);
    case FrozenSet(elems) => SetSent(schema, order, v, elems);
    case Dict(entries) => if Sendable(schema, order, v) { DictSent(schema, order, v, entries); }
    case Data(_, fields) => FieldsSent(schema, order, v, fields);
    case _ =>
  }

  lemma ListSent(schema: Schema, order: Order, v: Value, items: seq<Value>)
    requires Sorts(order) && (v == List(items) || v == Tuple(items))
    ensures EncodeAll(schema, order, v, items).Some? <==> forall c :: c in Held(v) ==> Encode(schema, order, c).Some?
  {
    assert forall i :: 0 <= i < |items| ==> items[i] in Held(v);
  }

  lemma DictSent(schema: Schema, order: Order, v: Value, entries: seq<(Key, Value)>)
    requires Sorts(order) && v == Dict(entries) && forall i :: 0 <= i < |entries| ==> entries[i].0.StrKey?
    ensures EncodeFields(schema, order, v, Named(entries)).Some? <==> forall c :: c in Held(v) ==> Encode(schema, order, c).Some?
  {
    var fields := Named(entries);
    assert Held(v) == set i | 0 <= i < |fields| :: fields[i].1;
    FieldsSent(schema, order, v, fields);
  }

  lemma FieldsSent(schema: Schema, order: Order, v: Value, fields: seq<(string, Value)>)
    requires Sorts(order) && forall i :: 0 <= i < |fields| ==> fields[i].1 < v
    requires Held(v) == set i | 0 <= i < |fields| :: fields[i].1
    ensures EncodeFields(schema, order, v, fields).Some? <==> forall c :: c in Held(v) ==> Encode(schema, order, c).Some?
  {
    assert forall i :: 0 <= i < |fields| ==> fields[i].1 in Held(v);
  }

  lemma SetSent(schema: Schema, order: Order, v: Value, elems: set<Value>)
    requires Sorts(order) && (v == Set(elems) || v == FrozenSet(elems))
    ensures EncodeSet(schema, order, v, elems).Some? <==> order(elems).Some? && forall c :: c in elems ==> Encode(schema, order, c).Some?
  {
    if order(elems).Some? {
      var items := order(elems).value;
      assert Arranges(elems, items);
      assert forall i :: 0 <= i < |items| ==> items[i] in elems;
      assert forall c :: c in elems ==> exists i :: 0 <= i < |items| && items[i] == c;
    }
  }

  /** A value is sent exactly if each of its parts may be: no number that is not finite, no foreign
      object, no key that is not a string, no set that cannot be sorted, no unpublished dataclass. */
  lemma {:induction false} SentIffSendable(schema: Schema, order: Order, v: Value)
    requires Sorts(order)
    ensures Encode(schema, order, v).Some? <==> AllSendable(schema, order, v)
    decreases v
  {
    PartByPart(schema, order, v);
    SentPartByPart(schema, order, v);
    forall c | c in Held(v) ensures Encode(schema, order, c).Some? <==> AllSendable(schema, order, c) { SentIffSendable(schema, order, c); }
  }

  // -- What is read -----------------------------------------------------------------------------------

  // What a JSON parser makes of a document: no object names a member twice.
  ghost predicate Parsed(j: Json)
    decreases j
  {
    match j
    case JAtom(_) => true
    case JArray(items) => forall i :: 0 <= i < |items| ==> Parsed(items[i])
    case JObject(members) => Distinct(Names(members)) && forall i :: 0 <= i < |members| ==> Parsed(members[i].1)
  }

  // The object has exactly these members, in any order.
  ghost predicate IsObject(j: Json, members: map<string, Json>) {
    && j.JObject? && NameSet(j.members) == members.Keys
    && forall i :: 0 <= i < |j.members| ==> j.members[i].1 == members[j.members[i].0]
  }

  function Text(s: string): Json { JAtom(SStr(s)) }

  ghost predicate IsTagged(j: Json, tag: string, items: seq<Json>) {
    IsObject(j, map[MARKER := Text(tag), "items" := JArray(items)])
  }

  ghost predicate IsTyped(j: Json, name: string, fields: seq<(string, Json)>) {
    IsObject(j, map[MARKER := Text("dataclass"), "name" := Text(name), "fields" := JObject(fields)])
  }

  // A dict as an object of its own: where it names the marker, that member is null.
  ghost predicate IsPlain(j: Json, members: seq<(string, Json)>) {
    j == JObject(members) && forall i :: 0 <= i < |members| ==> (members[i].0 == MARKER ==> members[i].1 == JAtom(SNone))
  }

  ghost predicate SpelledAs(j: Json, members: seq<(string, Json)>) {
    IsPlain(j, members) || IsTagged(j, "mapping", Pairs(members))
  }

  /** The document j spells the value v. A list is spelled item by item; a set by any list of its elements,
      repetition allowed, all of them hashable; a dict by itself or by the list of its pairs; an instance by
      its name and its fields in any order. Nothing spells a tuple, a frozen set or a foreign object. */
  ghost predicate Spells(schema: Schema, j: Json, v: Value)
    decreases v, 2
  {
    match v
    case Atom(s) => j == JAtom(s)
    case List(items) => j.JArray? && |j.items| == |items| && forall i :: 0 <= i < |items| ==> Spells(schema, j.items[i], items[i])
    case Set(elems) =>
      && (forall e :: e in elems ==> Hashable(e))
      && exists js :: IsTagged(j, "set", js)
           && (forall e :: e in elems ==> SpelledBySome(schema, js, e))
           && (forall k :: 0 <= k < |js| ==> SpellsSome(schema, js[k], elems))
    case Dict(entries) =>
      && (forall i, k :: 0 <= i < k < |entries| ==> entries[i].0 != entries[k].0)
      && exists members: seq<(string, Json)> :: SpelledAs(j, members) && |members| == |entries|
           && forall i :: 0 <= i < |entries| ==> entries[i].0 == StrKey(members[i].0) && Spells(schema, members[i].1, entries[i].1)
    case Data(name, fields) =>
      && name in schema && Names(fields) == schema[name]
      && exists members: seq<(string, Json)> :: IsTyped(j, name, members) && NameSet(members) == (set f | f in schema[name])
           && forall i :: 0 <= i < |fields| ==> FieldSpelled(schema, members, fields[i])
    case _ => false
  }

  ghost predicate SpelledBySome(schema: Schema, js: seq<Json>, e: Value)
    decreases e, 3
  {
    exists k :: 0 <= k < |js| && Spells(schema, js[k], e)
  }

  ghost predicate FieldSpelled(schema: Schema, members: seq<(string, Json)>, field: (string, Value))
    decreases field.1, 3
  {
    exists k :: 0 <= k < |members| && members[k].0 == field.0 && Spells(schema, members[k].1, field.1)
  }

  ghost predicate SpellsSome(schema: Schema, j: Json, elems: set<Value>)
    decreases Set(elems), 1
  {
    exists e :: e in elems && Spells(schema, j, e)
  }

  // -- Objects by their members -----------------------------------------------------------------------

  lemma {:induction false} GetFinds(members: seq<(string, Json)>, name: string)
    ensures name in NameSet(members) ==> (name, Get(members, name)) in members
    ensures name !in NameSet(members) ==> Get(members, name) == JAtom(SNone)
  {
    if members != [] && members[0].0 != name {
      GetFinds(members[1..], name);
      if name in NameSet(members) {
        var k :| 0 <= k < |members| && members[k].0 == name;
        assert members[1..][k - 1].0 == name;
      }
    }
  }

  lemma {:induction false} GetIs(members: seq<(string, Json)>, i: nat)
    requires Distinct(Names(members)) && i < |members|
    ensures Get(members, members[i].0) == members[i].1
  {
    if i > 0 {
      assert Names(members)[0] != Names(members)[i];
      assert Names(members[1..]) == Names(members)[1..];
      GetIs(members[1..], i - 1);
    }
  }

  lemma ObjectIff(j: Json, members: map<string, Json>)
    requires Parsed(j) && j.JObject?
    ensures IsObject(j, members) <==> NameSet(j.members) == members.Keys && forall name :: name in members ==> Get(j.members, name) == members[name]
  {
    forall i | 0 <= i < |j.members| ensures Get(j.members, j.members[i].0) == j.members[i].1 && j.members[i].0 in NameSet(j.members) { GetIs(j.members, i); }
    forall name | name in NameSet(j.members) ensures (name, Get(j.members, name)) in j.members { GetFinds(j.members, name); }
  }

  lemma TaggedIff(j: Json, tag: string, items: seq<Json>)
    requires Parsed(j) && j.JObject?
    ensures IsTagged(j, tag, items)
       <==> NameSet(j.members) == {MARKER, "items"} && Get(j.members, MARKER) == Text(tag) && Get(j.members, "items") == JArray(items)
  {
    assert MARKER[0] != "items"[0];
    ObjectIff(j, map[MARKER := Text(tag), "items" := JArray(items)]);
  }

  lemma TypedIff(j: Json, name: string, fields: seq<(string, Json)>)
    requires Parsed(j) && j.JObject?
    ensures IsTyped(j, name, fields)
       <==> && NameSet(j.members) == {MARKER, "name", "fields"} && Get(j.members, MARKER) == Text("dataclass")
            && Get(j.members, "name") == Text(name) && Get(j.members, "fields") == JObject(fields)
  {
    var members := map[MARKER := Text("dataclass"), "name" := Text(name), "fields" := JObject(fields)];
    assert members.Keys == {MARKER, "name", "fields"};
    assert MARKER[0] != "name"[0] && MARKER[0] != "fields"[0] && "name"[0] != "fields"[0];
    assert members[MARKER] == Text("dataclass") && members["name"] == Text(name) && members["fields"] == JObject(fields);
    ObjectIff(j, members);
  }

  lemma PlainIff(j: Json, members: seq<(string, Json)>)
    requires Parsed(j) && j.JObject?
    ensures IsPlain(j, members) <==> members == j.members && Get(j.members, MARKER) == JAtom(SNone)
  {
    GetFinds(j.members, MARKER);
    forall i | 0 <= i < |j.members| && j.members[i].0 == MARKER ensures Get(j.members, MARKER) == j.members[i].1 { GetIs(j.members, i); }
  }

  // -- What is spelled is read ----------------------------------------------------------------------------

  ghost predicate Reads(schema: Schema, j: Json, v: Value) {
    Decode(schema, j) == Some(v)
  }

  ghost predicate ReadFromSome(schema: Schema, js: seq<Json>, e: Value) {
    exists k :: 0 <= k < |js| && Reads(schema, js[k], e)
  }

  ghost predicate ReadsSome(schema: Schema, j: Json, elems: set<Value>) {
    exists e :: e in elems && Reads(schema, j, e)
  }

  lemma ListIsRead(schema: Schema, j: Json, items: seq<Value>)
    requires j.JArray? && |j.items| == |items| && forall i :: 0 <= i < |items| ==> Reads(schema, j.items[i], items[i])
    ensures Reads(schema, j, List(items))
  {
    var vs := DecodeAll(schema, j, j.items);
    assert vs.Some? && vs.value == items;
  }

  lemma SetIsRead(schema: Schema, j: Json, js: seq<Json>, elems: set<Value>)
    requires Parsed(j) && IsTagged(j, "set", js)
    requires forall e :: e in elems ==> Hashable(e) && ReadFromSome(schema, js, e)
    requires forall k :: 0 <= k < |js| ==> ReadsSome(schema, js[k], elems)
    ensures Reads(schema, j, Set(elems))
  {
    TaggedIff(j, "set", js);
    ItemsInside(j);
    assert "set"[0] != "mapping"[0];
    assert Decode(schema, j) == DecodeSet(schema, j, JArray(js));
    ElementsAreRead(schema, j, js, elems);
  }

  lemma ElementsAreRead(schema: Schema, j: Json, js: seq<Json>, elems: set<Value>)
    requires JArray(js) < j && forall k :: 0 <= k < |js| ==> js[k] < j
    requires forall e :: e in elems ==> Hashable(e) && ReadFromSome(schema, js, e)
    requires forall k :: 0 <= k < |js| ==> ReadsSome(schema, js[k], elems)
    ensures DecodeSet(schema, j, JArray(js)) == Some(Set(elems))
  {
    var vs := DecodeAll(schema, j, js);
    assert vs.Some?;
    assert forall k :: 0 <= k < |js| ==> vs.value[k] in elems;
    assert (set i | 0 <= i < |js| :: vs.value[i]) == elems;
  }

  // What an object holds is below it.
  lemma ItemsInside(j: Json)
    requires j.JObject? && Parsed(j)
    ensures forall name :: Get(j.members, name) == JAtom(SNone) || Get(j.members, name) < j
    ensures forall name :: Parsed(Get(j.members, name))
  {
  }

  lemma DictIsRead(schema: Schema, j: Json, members: seq<(string, Json)>, entries: seq<(Key, Value)>)
    requires Parsed(j) && SpelledAs(j, members) && |members| == |entries|
    requires forall i, k :: 0 <= i < k < |entries| ==> entries[i].0 != entries[k].0
    requires forall i :: 0 <= i < |entries| ==> entries[i].0 == StrKey(members[i].0) && Reads(schema, members[i].1, entries[i].1)
    ensures Reads(schema, j, Dict(entries))
  {
    if IsPlain(j, members) {
      PlainIff(j, members);
      var vs := DecodeMembers(schema, j, members);
      assert vs.Some? && Keyed(vs.value) == entries;
    } else {
      MappingIsRead(schema, j, members, entries);
    }
  }

  lemma MappingIsRead(schema: Schema, j: Json, members: seq<(string, Json)>, entries: seq<(Key, Value)>)
    requires Parsed(j) && IsTagged(j, "mapping", Pairs(members)) && |members| == |entries|
    requires forall i, k :: 0 <= i < k < |entries| ==> entries[i].0 != entries[k].0
    requires forall i :: 0 <= i < |entries| ==> entries[i].0 == StrKey(members[i].0) && Reads(schema, members[i].1, entries[i].1)
    ensures Reads(schema, j, Dict(entries))
  {
    assert Distinct(Names(members)) by {
      forall i, k | 0 <= i < k < |members| ensures Names(members)[i] != Names(members)[k] { assert entries[i].0 != entries[k].0; }
    }
    MappingDecodes(schema, j, members);
    var vs := DecodeMembers(schema, j, members);
    assert vs.Some? && Keyed(vs.value) == entries;
  }

  lemma MappingDecodes(schema: Schema, j: Json, members: seq<(string, Json)>)
    requires Parsed(j) && IsTagged(j, "mapping", Pairs(members)) && Distinct(Names(members))
    ensures forall i :: 0 <= i < |members| ==> members[i].1 < j
    ensures var vs := DecodeMembers(schema, j, members); Decode(schema, j) == if vs.Some? then Some(Dict(Keyed(vs.value))) else None
  {
    TaggedIff(j, "mapping", Pairs(members));
    ItemsInside(j);
    PairsInside(j, members);
    assert Decode(schema, j) == DecodeMapping(schema, j, JArray(Pairs(members)));
    assert Unpaired(Pairs(members)) == members;
  }

  lemma PairsInside(j: Json, members: seq<(string, Json)>)
    requires JArray(Pairs(members)) < j
    ensures forall i :: 0 <= i < |members| ==> members[i].1 < j
  {
    forall i | 0 <= i < |members| ensures members[i].1 < j {
      var pair := Pairs(members)[i];
      assert members[i].1 == pair.items[1];
      assert pair < JArray(Pairs(members));
    }
  }

  ghost predicate FieldRead(schema: Schema, members: seq<(string, Json)>, field: (string, Value)) {
    exists k :: 0 <= k < |members| && members[k].0 == field.0 && Reads(schema, members[k].1, field.1)
  }

  lemma DataIsRead(schema: Schema, j: Json, name: string, members: seq<(string, Json)>, fields: seq<(string, Value)>)
    requires ValidSchema(schema) && name in schema && Names(fields) == schema[name]
    requires Parsed(j) && IsTyped(j, name, members) && NameSet(members) == (set f | f in schema[name])
    requires forall i :: 0 <= i < |fields| ==> FieldRead(schema, members, fields[i])
    ensures Reads(schema, j, Data(name, fields))
  {
    TypedDecodes(schema, j, name, members);
    FieldsAreRead(schema, name, members, fields);
    var vs := DecodeMembers(schema, j, members);
    assert vs.Some?;
    FieldsAreArranged(schema, name, members, fields, vs.value);
  }

  lemma TypedDecodes(schema: Schema, j: Json, name: string, members: seq<(string, Json)>)
    requires Parsed(j) && IsTyped(j, name, members) && name in schema && NameSet(members) == (set f | f in schema[name])
    ensures Parsed(JObject(members)) && forall i :: 0 <= i < |members| ==> members[i].1 < j
    ensures var vs := DecodeMembers(schema, j, members);
            Decode(schema, j) == if vs.Some? then Some(Data(name, Arranged(schema[name], vs.value))) else None
  {
    TypedIff(j, name, members);
    ItemsInside(j);
    var marker := Get(j.members, MARKER);
    assert "dataclass"[0] != "mapping"[0] && "dataclass"[0] != "set"[0];
    assert marker != JAtom(SNone) && marker != JAtom(SStr("mapping")) && marker != JAtom(SStr("set"));
    assert Decode(schema, j) == DecodeData(schema, j, Text("dataclass"), Text(name), JObject(members));
  }

  // Each member is the one that its field asks for.
  lemma FieldsAreRead(schema: Schema, name: string, members: seq<(string, Json)>, fields: seq<(string, Value)>)
    requires name in schema && Names(fields) == schema[name]
    requires Distinct(Names(members)) && NameSet(members) == (set f | f in schema[name])
    requires forall i :: 0 <= i < |fields| ==> FieldRead(schema, members, fields[i])
    ensures forall k :: 0 <= k < |members| ==> Decode(schema, members[k].1).Some?
  {
    forall k | 0 <= k < |members| ensures Decode(schema, members[k].1).Some? {
      assert members[k].0 in NameSet(members);
      assert members[k].0 in schema[name];
      var i :| 0 <= i < |schema[name]| && schema[name][i] == members[k].0;
      assert i < |fields| && fields[i].0 == Names(fields)[i] == members[k].0;
      assert FieldRead(schema, members, fields[i]);
      var m :| 0 <= m < |members| && members[m].0 == fields[i].0 && Reads(schema, members[m].1, fields[i].1);
      assert Names(members)[m] == Names(members)[k];
    }
  }

  lemma FieldsAreArranged(schema: Schema, name: string, members: seq<(string, Json)>, fields: seq<(string, Value)>, vs: seq<(string, Value)>)
    requires name in schema && Names(fields) == schema[name] && Distinct(Names(members))
    requires |vs| == |members| && forall k :: 0 <= k < |members| ==> vs[k].0 == members[k].0 && Decode(schema, members[k].1) == Some(vs[k].1)
    requires forall i :: 0 <= i < |fields| ==> FieldRead(schema, members, fields[i])
    ensures Arranged(schema[name], vs) == fields
  {
    assert Names(vs) == Names(members);
    forall i | 0 <= i < |fields| ensures Lookup(vs, fields[i].0) == fields[i].1 {
      assert FieldRead(schema, members, fields[i]);
      var k :| 0 <= k < |members| && members[k].0 == fields[i].0 && Reads(schema, members[k].1, fields[i].1);
      assert vs[k].0 == fields[i].0;
    }
    forall i | 0 <= i < |fields| ensures Arranged(schema[name], vs)[i] == fields[i] {
      assert Names(fields)[i] == fields[i].0;
    }
  }

  /** Every document is read as whatever value it spells. */
  lemma {:induction false} SpelledIsRead(schema: Schema, j: Json, v: Value)
    requires ValidSchema(schema) && Parsed(j) && Spells(schema, j, v)
    ensures Reads(schema, j, v)
    decreases v, 3
  {
    match v
    case Atom(_) =>
    case List(items) =>
      forall i | 0 <= i < |items| ensures Reads(schema, j.items[i], items[i]) { SpelledIsRead(schema, j.items[i], items[i]); }
      ListIsRead(schema, j, items);
    case Set(elems) => SpelledSetIsRead(schema, j, elems);
    case Dict(entries) => SpelledDictIsRead(schema, j, entries);
    case Data(name, fields) => SpelledDataIsRead(schema, j, name, fields);
  }

  lemma {:induction false} SpelledSetIsRead(schema: Schema, j: Json, elems: set<Value>)
    requires ValidSchema(schema) && Parsed(j) && Spells(schema, j, Set(elems))
    ensures Reads(schema, j, Set(elems))
    decreases Set(elems), 2
  {
    var js := SetSpelling(schema, j, elems);
    SpelledItemsAreParsed(j, "set", js);
    ElementsAreSpelled(schema, js, elems);
    ItemsAreElements(schema, js, elems);
    SetIsRead(schema, j, js, elems);
  }

  lemma {:induction false} FieldIsRead(schema: Schema, members: seq<(string, Json)>, field: (string, Value))
    requires ValidSchema(schema) && (forall k :: 0 <= k < |members| ==> Parsed(members[k].1)) && FieldSpelled(schema, members, field)
    ensures FieldRead(schema, members, field)
    decreases field.1, 4
  {
    var k :| 0 <= k < |members| && members[k].0 == field.0 && Spells(schema, members[k].1, field.1);
    SpelledIsRead(schema, members[k].1, field.1);
  }

  lemma {:induction false} ElementsAreSpelled(schema: Schema, js: seq<Json>, elems: set<Value>)
    requires ValidSchema(schema) && forall k :: 0 <= k < |js| ==> Parsed(js[k])
    requires forall e :: e in elems ==> SpelledBySome(schema, js, e)
    ensures forall e :: e in elems ==> ReadFromSome(schema, js, e)
    decreases Set(elems), 1
  {
    forall e | e in elems ensures ReadFromSome(schema, js, e) { ElementIsRead(schema, js, e); }
  }

  lemma {:induction false} ItemsAreElements(schema: Schema, js: seq<Json>, elems: set<Value>)
    requires ValidSchema(schema) && forall k :: 0 <= k < |js| ==> Parsed(js[k])
    requires forall k :: 0 <= k < |js| ==> SpellsSome(schema, js[k], elems)
    ensures forall k :: 0 <= k < |js| ==> ReadsSome(schema, js[k], elems)
    decreases Set(elems), 1
  {
    forall k | 0 <= k < |js| ensures ReadsSome(schema, js[k], elems) { SomeElementIsRead(schema, js[k], elems); }
  }

  lemma {:induction false} ElementIsRead(schema: Schema, js: seq<Json>, e: Value)
    requires ValidSchema(schema) && (forall k :: 0 <= k < |js| ==> Parsed(js[k])) && SpelledBySome(schema, js, e)
    ensures ReadFromSome(schema, js, e)
    decreases e, 4
  {
    var k :| 0 <= k < |js| && Spells(schema, js[k], e);
    SpelledIsRead(schema, js[k], e);
  }

  lemma {:induction false} SomeElementIsRead(schema: Schema, j: Json, elems: set<Value>)
    requires ValidSchema(schema) && Parsed(j) && SpellsSome(schema, j, elems)
    ensures ReadsSome(schema, j, elems)
    decreases Set(elems), 0
  {
    var e :| e in elems && Spells(schema, j, e);
    SpelledIsRead(schema, j, e);
  }

  lemma SetSpelling(schema: Schema, j: Json, elems: set<Value>) returns (js: seq<Json>)
    requires Spells(schema, j, Set(elems))
    ensures IsTagged(j, "set", js) && (forall e :: e in elems ==> Hashable(e) && SpelledBySome(schema, js, e))
    ensures forall k :: 0 <= k < |js| ==> SpellsSome(schema, js[k], elems)
  {
    js :| IsTagged(j, "set", js)
      && (forall e :: e in elems ==> SpelledBySome(schema, js, e))
      && (forall k :: 0 <= k < |js| ==> SpellsSome(schema, js[k], elems));
  }

  lemma {:induction false} SpelledDictIsRead(schema: Schema, j: Json, entries: seq<(Key, Value)>)
    requires ValidSchema(schema) && Parsed(j) && Spells(schema, j, Dict(entries))
    ensures Reads(schema, j, Dict(entries))
    decreases Dict(entries), 0
  {
    var members: seq<(string, Json)> :| SpelledAs(j, members) && |members| == |entries|
      && forall i :: 0 <= i < |entries| ==> entries[i].0 == StrKey(members[i].0) && Spells(schema, members[i].1, entries[i].1);
    SpelledMembersAreParsed(j, members);
    forall i | 0 <= i < |entries| ensures Reads(schema, members[i].1, entries[i].1) { SpelledIsRead(schema, members[i].1, entries[i].1); }
    DictIsRead(schema, j, members, entries);
  }

  lemma {:induction false} SpelledDataIsRead(schema: Schema, j: Json, name: string, fields: seq<(string, Value)>)
    requires ValidSchema(schema) && Parsed(j) && Spells(schema, j, Data(name, fields))
    ensures Reads(schema, j, Data(name, fields))
    decreases Data(name, fields), 0
  {
    var members: seq<(string, Json)> :| IsTyped(j, name, members) && NameSet(members) == (set f | f in schema[name])
      && forall i :: 0 <= i < |fields| ==> FieldSpelled(schema, members, fields[i]);
    TypedFieldsAreParsed(j, name, members);
    forall i | 0 <= i < |fields| ensures FieldRead(schema, members, fields[i]) { FieldIsRead(schema, members, fields[i]); }
    DataIsRead(schema, j, name, members, fields);
  }

  lemma SpelledItemsAreParsed(j: Json, tag: string, js: seq<Json>)
    requires Parsed(j) && IsTagged(j, tag, js)
    ensures forall i :: 0 <= i < |js| ==> Parsed(js[i])
  {
    TaggedIff(j, tag, js);
    ItemsInside(j);
    assert Parsed(JArray(js));
  }

  lemma TypedFieldsAreParsed(j: Json, name: string, members: seq<(string, Json)>)
    requires Parsed(j) && IsTyped(j, name, members)
    ensures forall i :: 0 <= i < |members| ==> Parsed(members[i].1)
  {
    TypedIff(j, name, members);
    ItemsInside(j);
    assert Parsed(JObject(members));
  }

  lemma SpelledMembersAreParsed(j: Json, members: seq<(string, Json)>)
    requires Parsed(j) && SpelledAs(j, members)
    ensures forall i :: 0 <= i < |members| ==> Parsed(members[i].1)
  {
    if IsTagged(j, "mapping", Pairs(members)) {
      SpelledItemsAreParsed(j, "mapping", Pairs(members));
      PairsAreParsed(members);
    }
  }

  lemma PairsAreParsed(members: seq<(string, Json)>)
    requires forall i :: 0 <= i < |members| ==> Parsed(Pairs(members)[i])
    ensures forall i :: 0 <= i < |members| ==> Parsed(members[i].1)
  {
    forall i | 0 <= i < |members| ensures Parsed(members[i].1) {
      var pair := Pairs(members)[i];
      assert pair == JArray([JAtom(SStr(members[i].0)), members[i].1]);
      assert Parsed(pair.items[1]);
    }
  }

  // -- What is read was spelled ---------------------------------------------------------------------------

  // Whatever is read from the document is what it spells.
  ghost predicate Sound(schema: Schema, j: Json) {
    Decode(schema, j).Some? ==> Spells(schema, j, Decode(schema, j).value)
  }

  lemma ReadListIsSpelled(schema: Schema, j: Json)
    requires j.JArray? && forall i :: 0 <= i < |j.items| ==> Sound(schema, j.items[i])
    ensures Sound(schema, j)
  {
    var vs := DecodeAll(schema, j, j.items);
    if vs.Some? {
      assert forall i :: 0 <= i < |j.items| ==> Spells(schema, j.items[i], vs.value[i]);
    }
  }

  lemma ReadSetIsSpelled(schema: Schema, j: Json, js: seq<Json>)
    requires IsTagged(j, "set", js) && JArray(js) < j && forall i :: 0 <= i < |js| ==> Sound(schema, js[i])
    ensures var read := DecodeSet(schema, j, JArray(js)); read.Some? ==> Spells(schema, j, read.value)
  {
    var read := DecodeSet(schema, j, JArray(js));
    if read.Some? {
      var vs := DecodeAll(schema, j, js).value;
      ReadSetIs(schema, j, js, read.value);
      ReadElementsAreSpelled(schema, js, vs, read.value.elems);
      SpellsThisSet(schema, j, js, read.value.elems);
    }
  }

  lemma ReadSetIs(schema: Schema, j: Json, js: seq<Json>, v: Value)
    requires JArray(js) < j && DecodeSet(schema, j, JArray(js)) == Some(v)
    ensures v.Set? && DecodeAll(schema, j, js).Some?
    ensures v.elems == (set x | x in DecodeAll(schema, j, js).value) && forall e :: e in v.elems ==> Hashable(e)
  {
    var vs := DecodeAll(schema, j, js).value;
    assert forall e :: e in vs ==> e in v.elems;
  }

  lemma ReadElementsAreSpelled(schema: Schema, js: seq<Json>, vs: seq<Value>, elems: set<Value>)
    requires |vs| == |js| && forall i :: 0 <= i < |js| ==> Decode(schema, js[i]) == Some(vs[i]) && Sound(schema, js[i])
    requires elems == set x | x in vs
    ensures forall e :: e in elems ==> SpelledBySome(schema, js, e)
    ensures forall k :: 0 <= k < |js| ==> SpellsSome(schema, js[k], elems)
  {
    forall e | e in elems ensures SpelledBySome(schema, js, e) {
      var k :| 0 <= k < |js| && vs[k] == e;
      assert Spells(schema, js[k], e);
    }
    forall k | 0 <= k < |js| ensures SpellsSome(schema, js[k], elems) {
      assert vs[k] in elems && Spells(schema, js[k], vs[k]);
    }
  }

  lemma SpellsThisSet(schema: Schema, j: Json, js: seq<Json>, elems: set<Value>)
    requires IsTagged(j, "set", js) && forall e :: e in elems ==> Hashable(e) && SpelledBySome(schema, js, e)
    requires forall k :: 0 <= k < |js| ==> SpellsSome(schema, js[k], elems)
    ensures Spells(schema, j, Set(elems))
  {
  }

  lemma ReadDictIsSpelled(schema: Schema, j: Json, members: seq<(string, Json)>)
    requires SpelledAs(j, members) && Distinct(Names(members))
    requires forall i :: 0 <= i < |members| ==> members[i].1 < j && Sound(schema, members[i].1)
    ensures var vs := DecodeMembers(schema, j, members); vs.Some? ==> Spells(schema, j, Dict(Keyed(vs.value)))
  {
    var vs := DecodeMembers(schema, j, members);
    if vs.Some? {
      forall i | 0 <= i < |members| ensures Spells(schema, members[i].1, vs.value[i].1) { assert Sound(schema, members[i].1); }
      KeysAreDistinct(members, Keyed(vs.value));
      SpellsThisDict(schema, j, members, Keyed(vs.value));
    }
  }

  lemma SpellsThisDict(schema: Schema, j: Json, members: seq<(string, Json)>, entries: seq<(Key, Value)>)
    requires SpelledAs(j, members) && |members| == |entries| && forall i, k :: 0 <= i < k < |entries| ==> entries[i].0 != entries[k].0
    requires forall i :: 0 <= i < |entries| ==> entries[i].0 == StrKey(members[i].0) && Spells(schema, members[i].1, entries[i].1)
    ensures Spells(schema, j, Dict(entries))
  {
  }

  lemma KeysAreDistinct(members: seq<(string, Json)>, entries: seq<(Key, Value)>)
    requires Distinct(Names(members)) && |entries| == |members| && forall i :: 0 <= i < |entries| ==> entries[i].0 == StrKey(members[i].0)
    ensures forall i, k :: 0 <= i < k < |entries| ==> entries[i].0 != entries[k].0
  {
    forall i, k | 0 <= i < k < |entries| ensures entries[i].0 != entries[k].0 { assert Names(members)[i] != Names(members)[k]; }
  }

  lemma PairedAgain(items: seq<Json>)
    requires forall i :: 0 <= i < |items| ==> IsPair(items[i])
    ensures Pairs(Unpaired(items)) == items
  {
    forall i | 0 <= i < |items| ensures Pairs(Unpaired(items))[i] == items[i] { assert IsPair(items[i]); }
  }

  lemma ReadMappingIsSpelled(schema: Schema, j: Json, items: seq<Json>)
    requires IsTagged(j, "mapping", items) && JArray(items) < j
    requires forall i :: 0 <= i < |items| && IsPair(items[i]) ==> Sound(schema, items[i].items[1])
    ensures var read := DecodeMapping(schema, j, JArray(items)); read.Some? ==> Spells(schema, j, read.value)
  {
    if DecodeMapping(schema, j, JArray(items)).Some? {
      var members := Unpaired(items);
      PairedAgain(items);
      PairsInside(j, members);
      ReadDictIsSpelled(schema, j, members);
    }
  }

  lemma ReadDataIsSpelled(schema: Schema, j: Json, name: string, members: seq<(string, Json)>)
    requires IsTyped(j, name, members) && JObject(members) < j && name in schema && Distinct(Names(members))
    requires NameSet(members) == (set f | f in schema[name]) && forall i :: 0 <= i < |members| ==> Sound(schema, members[i].1)
    ensures var vs := DecodeMembers(schema, j, members); vs.Some? ==> Spells(schema, j, Data(name, Arranged(schema[name], vs.value)))
  {
    var vs := DecodeMembers(schema, j, members);
    if vs.Some? {
      var fields := Arranged(schema[name], vs.value);
      assert Names(fields) == schema[name];
      forall i | 0 <= i < |fields| ensures FieldSpelled(schema, members, fields[i]) {
        FieldIsSpelled(schema, members, vs.value, fields[i].0);
      }
      SpellsThisData(schema, j, name, members, fields);
    }
  }

  lemma SpellsThisData(schema: Schema, j: Json, name: string, members: seq<(string, Json)>, fields: seq<(string, Value)>)
    requires name in schema && Names(fields) == schema[name] && IsTyped(j, name, members) && NameSet(members) == (set f | f in schema[name])
    requires forall i :: 0 <= i < |fields| ==> FieldSpelled(schema, members, fields[i])
    ensures Spells(schema, j, Data(name, fields))
  {
  }

  lemma FieldIsSpelled(schema: Schema, members: seq<(string, Json)>, vs: seq<(string, Value)>, name: string)
    requires Distinct(Names(members)) && name in NameSet(members) && forall i :: 0 <= i < |members| ==> Sound(schema, members[i].1)
    requires |vs| == |members| && forall k :: 0 <= k < |members| ==> vs[k].0 == members[k].0 && Decode(schema, members[k].1) == Some(vs[k].1)
    ensures FieldSpelled(schema, members, (name, Lookup(vs, name)))
  {
    var k :| 0 <= k < |members| && members[k].0 == name;
    assert Names(vs) == Names(members);
    assert vs[k].0 == name;
    assert Spells(schema, members[k].1, vs[k].1);
  }

  /** What is read from a document is a value it spells. */
  lemma {:induction false} ReadIsSpelled(schema: Schema, j: Json)
    requires Parsed(j)
    ensures Sound(schema, j)
    decreases j
  {
    forall d | d < j && Parsed(d) ensures Sound(schema, d) { ReadIsSpelled(schema, d); }
    match j
    case JAtom(_) =>
    case JArray(_) => ReadListIsSpelled(schema, j);
    case JObject(_) => ReadObjectIsSpelled(schema, j);
  }

  ghost predicate SoundBelow(schema: Schema, j: Json) {
    forall d :: d < j && Parsed(d) ==> Sound(schema, d)
  }

  predicate IsMarked(j: Json, tag: string)
    requires j.JObject?
  {
    Get(j.members, MARKER) == Text(tag)
  }

  ghost predicate HoldsItems(j: Json)
    requires j.JObject?
  {
    NameSet(j.members) == {MARKER, "items"}
  }

  lemma ReadObjectIsSpelled(schema: Schema, j: Json)
    requires Parsed(j) && j.JObject? && SoundBelow(schema, j)
    ensures Sound(schema, j)
  {
    if Get(j.members, MARKER) == JAtom(SNone) {
      PlainIff(j, j.members);
      ReadDictIsSpelled(schema, j, j.members);
    } else if IsMarked(j, "mapping") && HoldsItems(j) {
      MappingIsSpelled(schema, j);
    } else if IsMarked(j, "set") && HoldsItems(j) {
      SetIsSpelled(schema, j);
    } else {
      DataIsSpelled(schema, j);
    }
  }

  lemma MappingIsSpelled(schema: Schema, j: Json)
    requires Parsed(j) && j.JObject? && SoundBelow(schema, j) && IsMarked(j, "mapping") && HoldsItems(j)
    ensures Sound(schema, j)
  {
    var items := Get(j.members, "items");
    ItemsInside(j);
    if items.JArray? {
      TaggedIff(j, "mapping", items.items);
      forall i | 0 <= i < |items.items| && IsPair(items.items[i]) ensures Sound(schema, items.items[i].items[1]) {
        assert Parsed(items.items[i]);
        assert items.items[i].items[1] < items.items[i] < items;
      }
      ReadMappingIsSpelled(schema, j, items.items);
    }
    assert Decode(schema, j) == DecodeMapping(schema, j, items);
  }

  lemma SetIsSpelled(schema: Schema, j: Json)
    requires Parsed(j) && j.JObject? && SoundBelow(schema, j) && IsMarked(j, "set") && HoldsItems(j)
    ensures Sound(schema, j)
  {
    var items := Get(j.members, "items");
    ItemsInside(j);
    if items.JArray? {
      TaggedIff(j, "set", items.items);
      ReadSetIsSpelled(schema, j, items.items);
    }
    assert "set"[0] != "mapping"[0];
    assert Decode(schema, j) == DecodeSet(schema, j, items);
  }

  lemma DataIsSpelled(schema: Schema, j: Json)
    requires Parsed(j) && j.JObject? && SoundBelow(schema, j)
    requires Get(j.members, MARKER) != JAtom(SNone) && !(IsMarked(j, "mapping") && HoldsItems(j)) && !(IsMarked(j, "set") && HoldsItems(j))
    ensures Sound(schema, j)
  {
    ItemsInside(j);
    assert Decode(schema, j) == DecodeData(schema, j, Get(j.members, MARKER), Get(j.members, "name"), Get(j.members, "fields"));
    var fields := Get(j.members, "fields");
    if fields.JObject? { FieldsAreSound(schema, j, fields); }
    TypedIsSpelled(schema, j, Get(j.members, MARKER), Get(j.members, "name"), Get(j.members, "fields"));
  }

  lemma TypedIsSpelled(schema: Schema, j: Json, marker: Json, name: Json, fields: Json)
    requires j.JObject? && Parsed(j) && (fields == JAtom(SNone) || fields < j)
    requires marker == Get(j.members, MARKER) && name == Get(j.members, "name") && fields == Get(j.members, "fields")
    requires fields.JObject? ==> FieldsSound(schema, fields)
    ensures var read := DecodeData(schema, j, marker, name, fields); read.Some? ==> Spells(schema, j, read.value)
  {
    var read := DecodeData(schema, j, marker, name, fields);
    if read.Some? {
      TypedIff(j, name.scalar.s, fields.members);
      ReadDataIsSpelled(schema, j, name.scalar.s, fields.members);
    }
  }

  ghost predicate FieldsSound(schema: Schema, fields: Json)
    requires fields.JObject?
  {
    Distinct(Names(fields.members)) && forall i :: 0 <= i < |fields.members| ==> Sound(schema, fields.members[i].1)
  }

  lemma FieldsAreSound(schema: Schema, j: Json, fields: Json)
    requires SoundBelow(schema, j) && Parsed(fields) && fields < j && fields.JObject?
    ensures FieldsSound(schema, fields)
  {
    forall i | 0 <= i < |fields.members| ensures Sound(schema, fields.members[i].1) {
      var d := fields.members[i].1;
      assert d < fields < j && Parsed(d);
    }
  }

  /** A document is read as a value exactly if it spells that value, so every other document is refused. */
  lemma ReadIffSpelled(schema: Schema, j: Json, v: Value)
    requires ValidSchema(schema) && Parsed(j)
    ensures Decode(schema, j) == Some(v) <==> Spells(schema, j, v)
  {
    ReadIsSpelled(schema, j);
    if Spells(schema, j, v) { SpelledIsRead(schema, j, v); }
  }

  // -- What is read can be sent on --------------------------------------------------------------------------

  lemma {:induction false} SpelledIsLive(schema: Schema, j: Json, v: Value)
    requires Spells(schema, j, v)
    ensures Live(schema, v) && KeepsTypes(v)
    decreases v
  {
    match v
    case Atom(_) =>
    case List(items) =>
      forall i | 0 <= i < |items| ensures Live(schema, items[i]) && KeepsTypes(items[i]) { SpelledIsLive(schema, j.items[i], items[i]); }
    case Set(elems) =>
      var js := SetSpelling(schema, j, elems);
      forall e | e in elems ensures Live(schema, e) && KeepsTypes(e) {
        assert SpelledBySome(schema, js, e);
        var k :| 0 <= k < |js| && Spells(schema, js[k], e);
        SpelledIsLive(schema, js[k], e);
      }
    case Dict(entries) =>
      var members: seq<(string, Json)> :| SpelledAs(j, members) && |members| == |entries|
        && forall i :: 0 <= i < |entries| ==> entries[i].0 == StrKey(members[i].0) && Spells(schema, members[i].1, entries[i].1);
      forall i | 0 <= i < |entries| ensures Live(schema, entries[i].1) && KeepsTypes(entries[i].1) { SpelledIsLive(schema, members[i].1, entries[i].1); }
    case Data(name, fields) =>
      var members: seq<(string, Json)> :| IsTyped(j, name, members) && NameSet(members) == (set f | f in schema[name])
        && forall i :: 0 <= i < |fields| ==> FieldSpelled(schema, members, fields[i]);
      forall i | 0 <= i < |fields| ensures Live(schema, fields[i].1) && KeepsTypes(fields[i].1) {
        assert FieldSpelled(schema, members, fields[i]);
        var k :| 0 <= k < |members| && members[k].0 == fields[i].0 && Spells(schema, members[k].1, fields[i].1);
        SpelledIsLive(schema, members[k].1, fields[i].1);
      }
  }

  lemma {:induction false} KeptTypesTravel(v: Value)
    requires KeepsTypes(v)
    ensures SetsTravel(v)
    decreases v
  {
    match v
    case List(items) => forall i | 0 <= i < |items| ensures SetsTravel(items[i]) { KeptTypesTravel(items[i]); }
    case Dict(entries) => forall i | 0 <= i < |entries| ensures SetsTravel(entries[i].1) { KeptTypesTravel(entries[i].1); }
    case Data(_, fields) => forall i | 0 <= i < |fields| ensures SetsTravel(fields[i].1) { KeptTypesTravel(fields[i].1); }
    case _ =>
  }

  /** What is read holds no tuple and no frozen set, so wherever its sets can be sorted it can be sent on,
      and the next reader reads the very same value. */
  lemma ReadValuesTravel(schema: Schema, order: Order, j: Json)
    requires ValidSchema(schema) && Sorts(order) && Parsed(j) && Decode(schema, j).Some?
    ensures var v := Decode(schema, j).value;
            && Live(schema, v) && KeepsTypes(v)
            && (Encode(schema, order, v).Some? ==> Decode(schema, Encode(schema, order, v).value) == Some(v))
  {
    var v := Decode(schema, j).value;
    ReadIsSpelled(schema, j);
    SpelledIsLive(schema, j, v);
    RoundTrip(schema, order, v);
    KeptTypesAreFixed(v);
    KeptTypesTravel(v);
    assert Travels(schema, order, v);
  }
}
