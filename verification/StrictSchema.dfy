/** Normalising a JSON schema to the strict subset of structured outputs. */
module StrictSchema {
  import opened Prelude
  import opened Ordering
  import opened Json

  // ---- dictionaries as member lists ---------------------------------------------------------

  /** `node.get(key)` */
  function Get(ms: seq<Member>, key: Text): Option<Json> {
    if ms == [] then None else if ms[0].key == key then Some(ms[0].value) else Get(ms[1..], key)
  }

  /** `node[key] = value` */
  function Set(ms: seq<Member>, key: Text, value: Json): seq<Member> {
    if ms == [] then [Member(key, value)]
    else if ms[0].key == key then [Member(key, value)] + ms[1..]
    else [ms[0]] + Set(ms[1..], key, value)
  }

  /** `value.pop(key, None)` */
  function Pop(ms: seq<Member>, key: Text): (r: seq<Member>)
    ensures forall i :: 0 <= i < |r| ==> r[i].key != key && r[i] in ms
  {
    if ms == [] then [] else if ms[0].key == key then Pop(ms[1..], key) else [ms[0]] + Pop(ms[1..], key)
  }

  function Keys(ms: seq<Member>): (r: seq<Text>)
    ensures |r| == |ms| && forall i :: 0 <= i < |r| ==> r[i] == ms[i].key
  {
    seq(|ms|, i requires 0 <= i < |ms| => ms[i].key)
  }

  lemma {:induction false} SetGives(ms: seq<Member>, key: Text, value: Json, other: Text)
    ensures Get(Set(ms, key, value), other) == if other == key then Some(value) else Get(ms, other)
  {
    if ms != [] && ms[0].key != key {
      SetGives(ms[1..], key, value, other);
      assert Set(ms, key, value)[1..] == Set(ms[1..], key, value);
    } else if ms != [] {
      assert Set(ms, key, value)[1..] == ms[1..];
    } else {
      assert Set(ms, key, value)[1..] == [];
    }
  }

  lemma {:induction false} SetSame(ms: seq<Member>, key: Text, value: Json)
    requires Get(ms, key) == Some(value)
    ensures Set(ms, key, value) == ms
  {
    if ms[0].key != key {
      SetSame(ms[1..], key, value);
      assert [ms[0]] + ms[1..] == ms;
    } else {
      assert [Member(key, value)] + ms[1..] == ms;
    }
  }

  lemma {:induction false} SetMembers(ms: seq<Member>, key: Text, value: Json)
    ensures forall m :: m in Set(ms, key, value) ==> m in ms || m == Member(key, value)
  {
    if ms != [] && ms[0].key != key { SetMembers(ms[1..], key, value); }
  }

  lemma {:induction false} PopNothing(ms: seq<Member>, key: Text)
    requires forall i :: 0 <= i < |ms| ==> ms[i].key != key
    ensures Pop(ms, key) == ms
  {
    if ms != [] { PopNothing(ms[1..], key); }
  }

  // ---- the traversal ------------------------------------------------------------------------

  const TYPE: Text := Codes("type")
  const OBJECT: Text := Codes("object")
  const PROPERTIES: Text := Codes("properties")
  const DEFAULT: Text := Codes("default")
  const REQUIRED: Text := Codes("required")
  const ADDITIONAL: Text := Codes("additionalProperties")

  /** How the traversal treats the value of a key. */
  datatype Role = Properties | Definitions | Nested | Alternatives | Untouched

  function RoleOf(key: Text): Role {
    if key == PROPERTIES then Properties
    else if key == Codes("$defs") || key == Codes("definitions") then Definitions
    else if key == Codes("items") || key == Codes("prefixItems") then Nested
    else if key == Codes("anyOf") || key == Codes("oneOf") || key == Codes("allOf") then Alternatives
    else Untouched
  }

  lemma RolesOfDemands()
    ensures RoleOf(REQUIRED) == RoleOf(ADDITIONAL) == RoleOf(TYPE) == Untouched && RoleOf(PROPERTIES) == Properties
    ensures REQUIRED != ADDITIONAL && REQUIRED != DEFAULT && ADDITIONAL != DEFAULT
    ensures REQUIRED != TYPE && ADDITIONAL != TYPE && REQUIRED != PROPERTIES && ADDITIONAL != PROPERTIES
  {
    assert |REQUIRED| == 8 && |ADDITIONAL| == 20 && |TYPE| == 4 && |PROPERTIES| == 10 && |DEFAULT| == 7;
    assert REQUIRED[0] == 114 && TYPE[0] == 116;
    assert |Codes("$defs")| == 5 && |Codes("definitions")| == 11 && |Codes("items")| == 5 && |Codes("prefixItems")| == 11
        && |Codes("anyOf")| == 5 && |Codes("oneOf")| == 5 && |Codes("allOf")| == 5;
  }

  /** An object node with a dictionary of properties. */
  predicate IsObjectNode(ms: seq<Member>) {
    Get(ms, TYPE) == Some(Str(OBJECT)) && Get(ms, PROPERTIES).Some? && Get(ms, PROPERTIES).value.Obj?
  }

  predicate KeyLeq(a: Text, b: Text) { LexLeq(a, b) }

  function Strings(keys: seq<Text>): seq<Json> {
    seq(|keys|, i requires 0 <= i < |keys| => Str(keys[i]))
  }

  /** `sorted(props)` as a JSON list */
  function AllRequired(ms: seq<Member>): Json
    requires IsObjectNode(ms)
  {
    Arr(Strings(SortBy(Keys(Get(ms, PROPERTIES).value.members), KeyLeq)))
  }

  /** The two keys that an object node is given. */
  function Demand(ms: seq<Member>): seq<Member> {
    if IsObjectNode(ms) then Set(Set(ms, ADDITIONAL, Bool(false)), REQUIRED, AllRequired(ms)) else ms
  }

  /** `_strictify` */
  function Strict(v: Json): Json
    decreases v, 0
  {
    match v
    case Obj(ms) => Obj(Demand(StrictMembers(ms, IsObjectNode(ms))))
    case Arr(items) => Arr(StrictItems(items))
    case _ => v
  }

  function StrictItems(items: seq<Json>): (r: seq<Json>)
    ensures |r| == |items| && forall i :: 0 <= i < |items| ==> r[i] == Strict(items[i])
    decreases items, 1
  {
    if items == [] then [] else [Strict(items[0])] + StrictItems(items[1..])
  }

  function StrictMembers(ms: seq<Member>, node: bool): (r: seq<Member>)
    ensures |r| == |ms| && forall i :: 0 <= i < |ms| ==> r[i] == Member(ms[i].key, StrictUnder(RoleOf(ms[i].key), node, ms[i].value))
    decreases ms, 1
  {
    if ms == [] then []
    else [Member(ms[0].key, StrictUnder(RoleOf(ms[0].key), node, ms[0].value))] + StrictMembers(ms[1..], node)
  }

  function StrictUnder(role: Role, node: bool, v: Json): Json
    decreases v, 2
  {
    match role
    case Properties => if node && v.Obj? then Obj(StrictProperties(v.members)) else v
    case Definitions => if v.Obj? then Obj(StrictValues(v.members)) else v
    case Nested => Strict(v)
    case Alternatives => if v.Arr? then Arr(StrictItems(v.items)) else v
    case Untouched => v
  }

  function StrictValues(ms: seq<Member>): (r: seq<Member>)
    ensures |r| == |ms| && forall i :: 0 <= i < |ms| ==> r[i] == Member(ms[i].key, Strict(ms[i].value))
    decreases ms, 1
  {
    if ms == [] then [] else [Member(ms[0].key, Strict(ms[0].value))] + StrictValues(ms[1..])
  }

  function StrictProperties(ms: seq<Member>): (r: seq<Member>)
    ensures |r| == |ms| && forall i :: 0 <= i < |ms| ==> r[i] == Member(ms[i].key, StrictProperty(ms[i].value))
    decreases ms, 1
  {
    if ms == [] then [] else [Member(ms[0].key, StrictProperty(ms[0].value))] + StrictProperties(ms[1..])
  }

  /** A property's schema loses its default before it is normalised. */
  function StrictProperty(v: Json): Json
    decreases v, 1
  {
    match v
    case Obj(ms) => Obj(Demand(Pop(StrictMembers(ms, IsObjectNode(ms)), DEFAULT)))
    case _ => Strict(v)
  }

  // ---- where the traversal raises -----------------------------------------------------------

  /** Every property schema and every table of definitions is a dictionary, and every list of
      alternatives can be iterated: anything else makes the original raise. */
  predicate Proper(v: Json)
    decreases v, 0
  {
    match v
    case Obj(ms) => forall i | 0 <= i < |ms| :: ProperUnder(RoleOf(ms[i].key), IsObjectNode(ms), ms[i].value)
    case Arr(items) => forall i | 0 <= i < |items| :: Proper(items[i])
    case _ => true
  }

  predicate ProperUnder(role: Role, node: bool, v: Json)
    decreases v, 1
  {
    match role
    case Properties =>
      (node && v.Obj? ==> forall i | 0 <= i < |v.members| :: v.members[i].value.Obj? && Proper(v.members[i].value))
    case Definitions => v.Obj? && forall i | 0 <= i < |v.members| :: Proper(v.members[i].value)
    case Nested => Proper(v)
    case Alternatives => (v.Arr? || v.Str? || v.Obj?) && (v.Arr? ==> forall i | 0 <= i < |v.items| :: Proper(v.items[i]))
    case Untouched => true
  }

  /** The result of `_strictify`; None where it raises. */
  function Strictify(v: Json): Option<Json> { if Proper(v) then Some(Strict(v)) else None }

  // ---- the strict subset ----------------------------------------------------------------------

  /** Every object node that the traversal reaches admits no other keys, requires all its
      properties in sorted order, and gives none of them a default. */
  predicate Normal(v: Json)
    decreases v, 0
  {
    match v
    case Obj(ms) =>
      && (IsObjectNode(ms) ==> Get(ms, ADDITIONAL) == Some(Bool(false)) && Get(ms, REQUIRED) == Some(AllRequired(ms)))
      && forall i | 0 <= i < |ms| :: NormalUnder(RoleOf(ms[i].key), IsObjectNode(ms), ms[i].value)
    case Arr(items) => forall i | 0 <= i < |items| :: Normal(items[i])
    case _ => true
  }

  predicate NormalUnder(role: Role, node: bool, v: Json)
    decreases v, 1
  {
    match role
    case Properties => node && v.Obj? ==> forall i | 0 <= i < |v.members| :: NoDefault(v.members[i].value) && Normal(v.members[i].value)
    case Definitions => v.Obj? ==> forall i | 0 <= i < |v.members| :: Normal(v.members[i].value)
    case Nested => Normal(v)
    case Alternatives => v.Arr? ==> forall i | 0 <= i < |v.items| :: Normal(v.items[i])
    case Untouched => true
  }

  predicate NoDefault(v: Json) {
    v.Obj? ==> forall i | 0 <= i < |v.members| :: v.members[i].key != DEFAULT
  }

  // ---- nodes stay nodes --------------------------------------------------------------------------

  lemma {:induction false} GetStrict(ms: seq<Member>, node: bool, key: Text)
    ensures Get(StrictMembers(ms, node), key) ==
            match Get(ms, key) case None => None case Some(v) => Some(StrictUnder(RoleOf(key), node, v))
  {
    if ms != [] {
      GetStrict(ms[1..], node, key);
      assert StrictMembers(ms, node)[1..] == StrictMembers(ms[1..], node);
    }
  }

  lemma {:induction false} GetPopped(ms: seq<Member>, key: Text, other: Text)
    requires key != other
    ensures Get(Pop(ms, key), other) == Get(ms, other)
  {
    if ms != [] {
      GetPopped(ms[1..], key, other);
      if ms[0].key != key { assert Pop(ms, key)[1..] == Pop(ms[1..], key); }
    }
  }

  /** Two member lists that agree on the type and on the names of the properties. */
  ghost predicate SameNode(a: seq<Member>, b: seq<Member>) {
    && (IsObjectNode(a) <==> IsObjectNode(b))
    && (IsObjectNode(a) ==> Keys(Get(a, PROPERTIES).value.members) == Keys(Get(b, PROPERTIES).value.members))
  }

  lemma StrictSameNode(ms: seq<Member>)
    ensures SameNode(ms, StrictMembers(ms, IsObjectNode(ms)))
  {
    RolesOfDemands();
    GetStrict(ms, IsObjectNode(ms), TYPE);
    GetStrict(ms, IsObjectNode(ms), PROPERTIES);
  }

  lemma PopSameNode(ms: seq<Member>)
    ensures SameNode(ms, Pop(ms, DEFAULT))
  {
    assert |TYPE| == 4 && |PROPERTIES| == 10 && |DEFAULT| == 7;
    GetPopped(ms, DEFAULT, TYPE);
    GetPopped(ms, DEFAULT, PROPERTIES);
  }

  lemma DemandSameNode(ms: seq<Member>)
    ensures SameNode(ms, Demand(ms))
    ensures IsObjectNode(ms) ==> Get(Demand(ms), ADDITIONAL) == Some(Bool(false)) && Get(Demand(ms), REQUIRED) == Some(AllRequired(ms))
    ensures IsObjectNode(ms) ==> AllRequired(Demand(ms)) == AllRequired(ms)
    ensures forall m :: m in Demand(ms) ==> m in ms || m.key == ADDITIONAL || m.key == REQUIRED
  {
    RolesOfDemands();
    if IsObjectNode(ms) {
      var one := Set(ms, ADDITIONAL, Bool(false));
      var required := AllRequired(ms);
      SetMembers(ms, ADDITIONAL, Bool(false));
      SetMembers(one, REQUIRED, required);
      SetGives(ms, ADDITIONAL, Bool(false), TYPE);
      SetGives(ms, ADDITIONAL, Bool(false), PROPERTIES);
      SetGives(ms, ADDITIONAL, Bool(false), ADDITIONAL);
      SetGives(one, REQUIRED, required, TYPE);
      SetGives(one, REQUIRED, required, PROPERTIES);
      SetGives(one, REQUIRED, required, ADDITIONAL);
      SetGives(one, REQUIRED, required, REQUIRED);
      hide Set, Get, RoleOf;
    }
  }

  // ---- strict schemas are exactly the fixed points --------------------------------------------------

  lemma NodeIsNormal(ms: seq<Member>, parts: seq<Member>)
    requires SameNode(ms, parts)
    requires forall m :: m in parts ==> NormalUnder(RoleOf(m.key), IsObjectNode(ms), m.value)
    ensures Normal(Obj(Demand(parts)))
  {
    RolesOfDemands();
    DemandSameNode(parts);
    var all := Demand(parts);
    hide Demand, Get, RoleOf, AllRequired;
    forall i | 0 <= i < |all| ensures NormalUnder(RoleOf(all[i].key), IsObjectNode(all), all[i].value) {
      assert all[i] in all;
    }
  }

  lemma {:induction false} StrictIsNormal(v: Json)
    ensures Normal(Strict(v))
    decreases v, 0
  {
    match v {
      case Obj(ms) =>
        var node := IsObjectNode(ms);
        var parts := StrictMembers(ms, node);
        StrictSameNode(ms);
        forall i | 0 <= i < |ms| ensures NormalUnder(RoleOf(parts[i].key), node, parts[i].value) {
          UnderIsNormal(RoleOf(ms[i].key), node, ms[i].value);
        }
        hide Demand, RoleOf, NormalUnder, SameNode, IsObjectNode;
        NodeIsNormal(ms, parts);
      case Arr(items) =>
        forall i | 0 <= i < |items| ensures Normal(Strict(items[i])) { StrictIsNormal(items[i]); }
      case _ =>
    }
  }

  lemma {:induction false} UnderIsNormal(role: Role, node: bool, v: Json)
    ensures NormalUnder(role, node, StrictUnder(role, node, v))
    decreases v, 2
  {
    match role {
      case Properties =>
        if node && v.Obj? {
          forall i | 0 <= i < |v.members|
            ensures NoDefault(StrictProperty(v.members[i].value)) && Normal(StrictProperty(v.members[i].value))
          {
            PropertyIsNormal(v.members[i].value);
          }
        }
      case Definitions =>
        if v.Obj? {
          forall i | 0 <= i < |v.members| ensures Normal(Strict(v.members[i].value)) { StrictIsNormal(v.members[i].value); }
        }
      case Nested => StrictIsNormal(v);
      case Alternatives =>
        if v.Arr? {
          forall i | 0 <= i < |v.items| ensures Normal(Strict(v.items[i])) { StrictIsNormal(v.items[i]); }
        }
      case Untouched =>
    }
  }

  lemma {:induction false} PropertyIsNormal(v: Json)
    ensures NoDefault(StrictProperty(v)) && Normal(StrictProperty(v))
    decreases v, 1
  {
    match v {
      case Obj(ms) =>
        var node := IsObjectNode(ms);
        var parts := StrictMembers(ms, node);
        var kept := Pop(parts, DEFAULT);
        StrictSameNode(ms);
        PopSameNode(parts);
        forall i | 0 <= i < |ms| ensures NormalUnder(RoleOf(parts[i].key), node, parts[i].value) {
          UnderIsNormal(RoleOf(ms[i].key), node, ms[i].value);
        }
        forall m | m in kept ensures NormalUnder(RoleOf(m.key), node, m.value) {
          var i :| 0 <= i < |kept| && kept[i] == m;
          assert kept[i] in parts;
        }
        DemandSameNode(kept);
        RolesOfDemands();
        hide Demand, RoleOf, NormalUnder, IsObjectNode, Get, Pop;
        NodeIsNormal(ms, kept);
        NoDefaultDemanded(kept);
      case _ =>
        StrictIsNormal(v);
    }
  }

  lemma NoDefaultDemanded(kept: seq<Member>)
    requires forall i :: 0 <= i < |kept| ==> kept[i].key != DEFAULT
    ensures NoDefault(Obj(Demand(kept)))
  {
    DemandSameNode(kept);
    RolesOfDemands();
    hide Demand;
    forall i | 0 <= i < |Demand(kept)| ensures Demand(kept)[i].key != DEFAULT {
      assert Demand(kept)[i] in Demand(kept);
    }
  }

  lemma DemandMet(ms: seq<Member>)
    requires IsObjectNode(ms) ==> Get(ms, ADDITIONAL) == Some(Bool(false)) && Get(ms, REQUIRED) == Some(AllRequired(ms))
    ensures Demand(ms) == ms
  {
    if IsObjectNode(ms) {
      SetSame(ms, ADDITIONAL, Bool(false));
      SetSame(ms, REQUIRED, AllRequired(ms));
    }
  }

  lemma {:induction false} NormalIsFixed(v: Json)
    requires Normal(v)
    ensures Strict(v) == v
    decreases v, 0
  {
    match v {
      case Obj(ms) =>
        MembersFixed(v);
        DemandMet(ms);
        hide Demand;
      case Arr(items) =>
        forall i | 0 <= i < |items| ensures Strict(items[i]) == items[i] { NormalIsFixed(items[i]); }
        assert StrictItems(items) == items;
      case _ =>
    }
  }

  lemma {:induction false} MembersFixed(v: Json)
    requires v.Obj? && Normal(v)
    ensures StrictMembers(v.members, IsObjectNode(v.members)) == v.members
    decreases v, 0, 0
  {
    var ms, node := v.members, IsObjectNode(v.members);
    forall i | 0 <= i < |ms| ensures StrictUnder(RoleOf(ms[i].key), node, ms[i].value) == ms[i].value {
      UnderFixed(RoleOf(ms[i].key), node, ms[i].value);
    }
    hide RoleOf, StrictUnder;
    assert StrictMembers(ms, node) == ms;
  }

  lemma {:induction false} UnderFixed(role: Role, node: bool, v: Json)
    requires NormalUnder(role, node, v)
    ensures StrictUnder(role, node, v) == v
    decreases v, 2
  {
    match role {
      case Properties =>
        if node && v.Obj? {
          forall i | 0 <= i < |v.members| ensures StrictProperty(v.members[i].value) == v.members[i].value {
            PropertyFixed(v.members[i].value);
          }
          assert StrictProperties(v.members) == v.members;
        }
      case Definitions =>
        if v.Obj? {
          forall i | 0 <= i < |v.members| ensures Strict(v.members[i].value) == v.members[i].value { NormalIsFixed(v.members[i].value); }
          assert StrictValues(v.members) == v.members;
        }
      case Nested => NormalIsFixed(v);
      case Alternatives =>
        if v.Arr? {
          forall i | 0 <= i < |v.items| ensures Strict(v.items[i]) == v.items[i] { NormalIsFixed(v.items[i]); }
          assert StrictItems(v.items) == v.items;
        }
      case Untouched =>
    }
  }

  lemma {:induction false} PropertyFixed(v: Json)
    requires Normal(v) && NoDefault(v)
    ensures StrictProperty(v) == v
    decreases v, 1
  {
    match v {
      case Obj(ms) =>
        MembersFixed(v);
        PopNothing(ms, DEFAULT);
        DemandMet(ms);
        hide Demand, Pop;
      case _ =>
        NormalIsFixed(v);
    }
  }

  /** A schema is in the strict subset exactly when normalising leaves it as it is, normalising always
      ends there, and so doing it twice is doing it once. */
  lemma StrictIsIdempotent(v: Json)
    ensures Normal(v) <==> Strict(v) == v
    ensures Normal(Strict(v)) && Strict(Strict(v)) == Strict(v)
  {
    StrictIsNormal(v);
    NormalIsFixed(Strict(v));
    if Normal(v) { NormalIsFixed(v); }
  }

  /** A node keeps its properties' names in their order, and normalising a property's schema is
      normalising what is left of it without its default. */
  lemma PropertyNamesKept(ms: seq<Member>)
    ensures SameNode(ms, Strict(Obj(ms)).members)
    ensures StrictProperty(Obj(ms)) == Strict(Obj(Pop(ms, DEFAULT)))
  {
    var node := IsObjectNode(ms);
    StrictSameNode(ms);
    DemandSameNode(StrictMembers(ms, node));
    PopSameNode(ms);
    PopCommutes(ms, node);
    hide Demand, Get, Pop;
  }

  lemma {:induction false} PopCommutes(ms: seq<Member>, node: bool)
    ensures StrictMembers(Pop(ms, DEFAULT), node) == Pop(StrictMembers(ms, node), DEFAULT)
  {
    if ms != [] {
      PopCommutes(ms[1..], node);
      assert StrictMembers(ms, node)[1..] == StrictMembers(ms[1..], node);
      if ms[0].key != DEFAULT { assert Pop(ms, DEFAULT)[1..] == Pop(ms[1..], DEFAULT); }
    }
  }

  // ---- keyword by keyword ------------------------------------------------------------------------------

  predicate IsTable(key: Text) { key == Codes("$defs") || key == Codes("definitions") }

  predicate IsNested(key: Text) { key == Codes("items") || key == Codes("prefixItems") }

  predicate IsChoice(key: Text) { key == Codes("anyOf") || key == Codes("oneOf") || key == Codes("allOf") }

  lemma KeywordsApart(key: Text)
    ensures (IsTable(key) || IsNested(key) || IsChoice(key)) ==> key != Codes("properties")
    ensures !(IsTable(key) && IsNested(key)) && !(IsTable(key) && IsChoice(key)) && !(IsNested(key) && IsChoice(key))
  {
    assert |Codes("$defs")| == |Codes("items")| == |Codes("anyOf")| == |Codes("oneOf")| == |Codes("allOf")| == 5;
    assert |Codes("definitions")| == |Codes("prefixItems")| == 11 && |Codes("properties")| == 10;
    assert Codes("$defs")[0] == 36 && Codes("items")[0] == 105 && Codes("anyOf")[0] == 97 && Codes("oneOf")[0] == 111 && Codes("allOf")[0] == 97;
    assert Codes("definitions")[0] == 100 && Codes("prefixItems")[0] == 112;
  }

  /** An object with a table of properties and the type `object`. */
  predicate DescribesObject(ms: seq<Member>) {
    && Get(ms, Codes("type")) == Some(Str(Codes("object")))
    && Get(ms, Codes("properties")).Some? && Get(ms, Codes("properties")).value.Obj?
  }

  /** What becomes of the value of a key: the schemas in a table, behind `items` and in a list of choices are
      normalised, the properties of an object are normalised without their defaults, and every
      other value is left alone. */
  function PartOf(key: Text, node: bool, v: Json): Json {
    if key == Codes("properties") then if node && v.Obj? then Obj(StrictProperties(v.members)) else v
    else if IsTable(key) then if v.Obj? then Obj(StrictValues(v.members)) else v
    else if IsNested(key) then Strict(v)
    else if IsChoice(key) then if v.Arr? then Arr(StrictItems(v.items)) else v
    else v
  }

  lemma DemandGives(ms: seq<Member>, key: Text)
    ensures IsObjectNode(ms) <==> DescribesObject(ms)
    ensures Get(Demand(ms), key) ==
            if DescribesObject(ms) && key == Codes("required") then Some(AllRequired(ms))
            else if DescribesObject(ms) && key == Codes("additionalProperties") then Some(Bool(false))
            else Get(ms, key)
  {
    RolesOfDemands();
    if IsObjectNode(ms) {
      SetGives(ms, ADDITIONAL, Bool(false), key);
      SetGives(Set(ms, ADDITIONAL, Bool(false)), REQUIRED, AllRequired(ms), key);
    }
    hide Get, Set, AllRequired;
  }

  /** A normalised schema, key by key. */
  lemma StrictGives(ms: seq<Member>, key: Text)
    ensures Strict(Obj(ms)).Obj?
    ensures Get(Strict(Obj(ms)).members, key) ==
            if DescribesObject(ms) && key == Codes("required")
            then Some(Arr(Strings(SortBy(Keys(Get(ms, Codes("properties")).value.members), KeyLeq))))
            else if DescribesObject(ms) && key == Codes("additionalProperties") then Some(Bool(false))
            else match Get(ms, key) case None => None case Some(v) => Some(PartOf(key, DescribesObject(ms), v))
  {
    var parts := StrictMembers(ms, IsObjectNode(ms));
    StrictSameNode(ms);
    DemandGives(ms, key);
    DemandGives(parts, key);
    GetStrict(ms, IsObjectNode(ms), key);
    KeywordsApart(key);
    hide Get, Keys, SortBy, Demand;
  }

  /** Whether the value of a key can be traversed: a property's schema must be a dictionary, a table must be one, and
      choices must be something to iterate over; and so on inside. */
  predicate Traversed(key: Text, node: bool, v: Json) {
    if key == Codes("properties") then
      node && v.Obj? ==> forall i | 0 <= i < |v.members| :: v.members[i].value.Obj? && Strictify(v.members[i].value).Some?
    else if IsTable(key) then v.Obj? && forall i | 0 <= i < |v.members| :: Strictify(v.members[i].value).Some?
    else if IsNested(key) then Strictify(v).Some?
    else if IsChoice(key) then
      v.Str? || v.Obj? || (v.Arr? && forall i | 0 <= i < |v.items| :: Strictify(v.items[i]).Some?)
    else true
  }

  /** Exactly where normalising raises; where it does not, it gives what the statements above are about. */
  lemma StrictifyDecides(v: Json)
    ensures Strictify(v).Some? ==> Strictify(v) == Some(Strict(v))
    ensures v.Obj? ==>
      (Strictify(v).Some? <==> forall m :: m in v.members ==> Traversed(m.key, DescribesObject(v.members), m.value))
    ensures v.Arr? ==> (Strictify(v).Some? <==> forall x :: x in v.items ==> Strictify(x).Some?)
    ensures !v.Obj? && !v.Arr? ==> Strictify(v) == Some(v)
  {
    if v.Obj? {
      DemandGives(v.members, TYPE);
      forall m | m in v.members
        ensures ProperUnder(RoleOf(m.key), IsObjectNode(v.members), m.value) <==> Traversed(m.key, DescribesObject(v.members), m.value)
      {
        PartTraversed(m.key, IsObjectNode(v.members), m.value);
      }
      ProperObject(v.members);
      hide Traversed, ProperUnder, RoleOf, IsObjectNode, DescribesObject, Strict;
      assert v == Obj(v.members);
    } else if v.Arr? {
      ProperList(v.items);
      assert v == Arr(v.items);
    }
  }

  lemma ProperList(items: seq<Json>)
    ensures Strictify(Arr(items)).Some? <==> forall x :: x in items ==> Strictify(x).Some?
  {
    hide Strict;
    if forall x :: x in items ==> Strictify(x).Some? {
      forall i | 0 <= i < |items| ensures Proper(items[i]) { assert Strictify(items[i]).Some?; }
    }
  }

  lemma ProperObject(ms: seq<Member>)
    ensures Strictify(Obj(ms)).Some? <==> forall m :: m in ms ==> ProperUnder(RoleOf(m.key), IsObjectNode(ms), m.value)
  {
    hide RoleOf, IsObjectNode, ProperUnder, Strict;
  }

  lemma PartTraversed(key: Text, node: bool, v: Json)
    ensures ProperUnder(RoleOf(key), node, v) <==> Traversed(key, node, v)
  {
    KeywordsApart(key);
    hide Strict;
  }
}
