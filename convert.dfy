/** The runtime validator of the level-file converter: `transform` checks a parsed JSON
    value against a type descriptor and rebuilds it, renaming object properties from their
    JSON names to their JavaScript names (`cast`) or back (`uncast`). A thrown error is a
    `Failure`. */
module Convert {
  import opened Wrappers
  import opened Regions

  /** A JavaScript value as `JSON.parse` produces it, plus `undefined`. */
  datatype Json =
    | JNull
    | JUndefined
    | JBool(b: bool)
    | JNum(n: real)
    | JStr(s: string)
    | JArr(items: seq<Json>)
    | JObj(fields: map<string, Json>)

  /** The `typeof` results a primitive descriptor can have. */
  datatype Kind = KString | KNumber | KBoolean | KUndefined

  /** A property of an object descriptor: its JSON name, its JavaScript name, its type. */
  datatype Prop = Prop(json: string, js: string, typ: Typ)

  /** A type descriptor. */
  datatype Typ =
    | TAny                              // the string "any"
    | TNull                             // null
    | TFalse                            // false
    | TPrim(kind: Kind)                 // any other string, a number, true, or undefined
    | TEnum(cases: seq<string>)         // an array of cases
    | TRef(name: string)                // r(name)
    | TUnion(members: seq<Typ>)         // u(...members)
    | TArray(items: Typ)                // a(items)
    | TObject(props: seq<Prop>, additional: Typ)  // o(props, additional)
    | TLiteral(name: string)            // l(name)

  /** The named descriptors refs resolve through. */
  type Env = map<string, Typ>

  /** `cast` looks properties up by JSON name, `uncast` by JavaScript name. */
  datatype Direction = ToJs | ToJson

  /** The descriptor `""`, `0` and `true` of the type map. */
  const Str := TPrim(KString)
  const Num := TPrim(KNumber)
  const Bool := TPrim(KBoolean)

  /** The error every failed check throws; its text is not modelled further. */
  const Invalid: Result<Json> := Failure("Invalid value")

  /** `typeof val` for the primitive kinds; `None` stands for "object" (null, arrays, objects). */
  function TypeOf(val: Json): Option<Kind>
  {
    match val
    case JUndefined => Some(KUndefined)
    case JBool(_) => Some(KBoolean)
    case JNum(_) => Some(KNumber)
    case JStr(_) => Some(KString)
    case _ => None
  }

  // ---------------------------------------------------------------------------
  // Descriptor constructors
  // ---------------------------------------------------------------------------

  /** `l(name)` */
  function L(name: string): Typ
  {
    TLiteral(name)
  }

  /** `a(items)` */
  function A(items: Typ): Typ
  {
    TArray(items)
  }

  /** `u(...members)` */
  function U(members: seq<Typ>): Typ
  {
    TUnion(members)
  }

  /** `o(props, additional)` */
  function O(props: seq<Prop>, additional: Typ): Typ
  {
    TObject(props, additional)
  }

  /** `m(additional)`: an object with no declared property, every key checked against
      `additional`. */
  function M(additional: Typ): Typ
  {
    TObject([], additional)
  }

  /** `r(name)` */
  function R(name: string): Typ
  {
    TRef(name)
  }

  // ---------------------------------------------------------------------------
  // Property tables
  // ---------------------------------------------------------------------------

  /** What a property table maps a name to: the name in the other direction and the type. */
  datatype Entry = Entry(key: string, typ: Typ)

  /** A plain object used as a map: its own property names in insertion order and their values. */
  datatype PropTable = PropTable(names: seq<string>, entries: map<string, Entry>)

  function NameOf(p: Prop, dir: Direction): string
  {
    if dir == ToJs then p.json else p.js
  }

  function KeyOf(p: Prop, dir: Direction): string
  {
    if dir == ToJs then p.js else p.json
  }

  /** The table `jsonToJSProps` (or `jsToJSONProps`) builds: each property stored under its
      name, a later property overwriting an earlier one of the same name, which keeps its
      first position. */
  function Table(props: seq<Prop>, dir: Direction): (t: PropTable)
    ensures forall n :: n in t.names <==> n in t.entries
  {
    if props == [] then PropTable([], map[])
    else
      var t := Table(props[..|props| - 1], dir);
      var p := props[|props| - 1];
      var n := NameOf(p, dir);
      PropTable(if n in t.entries then t.names else t.names + [n], t.entries[n := Entry(KeyOf(p, dir), p.typ)])
  }

  /** A table lists each name once. */
  lemma {:induction false} TableNoDup(props: seq<Prop>, dir: Direction)
    ensures NoDup(Table(props, dir).names)
  {
    if props != [] {
      var init := props[..|props| - 1];
      TableNoDup(init, dir);
      var t := Table(init, dir);
      var n := NameOf(props[|props| - 1], dir);
      if n !in t.entries {
        NoDupAppend(t.names, [n]);
      }
    }
  }

  /** A table holds exactly the names of the properties. */
  lemma {:induction false} TableNames(props: seq<Prop>, dir: Direction, n: string)
    ensures n in Table(props, dir).entries <==> exists i :: 0 <= i < |props| && NameOf(props[i], dir) == n
  {
    if props != [] {
      var init := props[..|props| - 1];
      TableNames(init, dir, n);
      if exists i :: 0 <= i < |props| && NameOf(props[i], dir) == n {
        var i :| 0 <= i < |props| && NameOf(props[i], dir) == n;
        if i < |init| {
          assert NameOf(init[i], dir) == n;
        }
      }
      if exists i :: 0 <= i < |init| && NameOf(init[i], dir) == n {
        var i :| 0 <= i < |init| && NameOf(init[i], dir) == n;
        assert NameOf(props[i], dir) == n;
      }
    }
  }

  /** A name maps to the last property of that name: a later property overwrites. */
  lemma {:induction false} TableLast(props: seq<Prop>, dir: Direction, i: nat)
    requires i < |props|
    requires forall j :: i < j < |props| ==> NameOf(props[j], dir) != NameOf(props[i], dir)
    ensures NameOf(props[i], dir) in Table(props, dir).entries
    ensures Table(props, dir).entries[NameOf(props[i], dir)] == Entry(KeyOf(props[i], dir), props[i].typ)
  {
    if i < |props| - 1 {
      var init := props[..|props| - 1];
      assert forall j :: i < j < |init| ==> init[j] == props[j];
      TableLast(init, dir, i);
    }
  }

  /** The entries of a table carry the types of the properties. */
  lemma {:induction false} TableTypes(props: seq<Prop>, dir: Direction, n: string)
    requires n in Table(props, dir).entries
    ensures exists i :: 0 <= i < |props| && Table(props, dir).entries[n].typ == props[i].typ
  {
    var init := props[..|props| - 1];
    if n != NameOf(props[|props| - 1], dir) {
      TableTypes(init, dir, n);
      var i :| 0 <= i < |init| && Table(init, dir).entries[n].typ == init[i].typ;
      assert props[i] == init[i];
    }
  }

  /** The entry of a name is built from the last property of that name. */
  lemma {:induction false} TableEntryOf(props: seq<Prop>, dir: Direction, n: string) returns (i: nat)
    requires n in Table(props, dir).entries
    ensures i < |props| && NameOf(props[i], dir) == n
    ensures Table(props, dir).entries[n] == Entry(KeyOf(props[i], dir), props[i].typ)
  {
    var init := props[..|props| - 1];
    if n == NameOf(props[|props| - 1], dir) {
      i := |props| - 1;
    } else {
      i := TableEntryOf(init, dir, n);
      assert props[i] == init[i];
    }
  }

  /** The `forEach` that fills a property table. */
  method BuildTable(props: seq<Prop>, dir: Direction) returns (t: PropTable)
    ensures t == Table(props, dir)
  {
    t := PropTable([], map[]);
    var i := 0;
    while i < |props|
      invariant 0 <= i <= |props|
      invariant t == Table(props[..i], dir)
    {
      var p := props[i];
      var n := NameOf(p, dir);
      assert props[..i + 1][..i] == props[..i];
      if n !in t.entries {
        t := t.(names := t.names + [n]);
      }
      t := t.(entries := t.entries[n := Entry(KeyOf(p, dir), p.typ)]);
      i := i + 1;
    }
    assert props[..|props|] == props;
  }

  /** An object descriptor with the two tables `jsonToJSProps` and `jsToJSONProps` store
      into it the first time they are asked for. */
  class ObjectDescriptor {
    const props: seq<Prop>
    const additional: Typ
    var jsonToJS: Option<PropTable>
    var jsToJSON: Option<PropTable>

    /** A stored table is the table of the descriptor's properties. */
    ghost predicate Valid()
      reads this
    {
      (jsonToJS.Some? ==> jsonToJS.value == Table(props, ToJs))
      && (jsToJSON.Some? ==> jsToJSON.value == Table(props, ToJson))
    }

    /** `o(props, additional)`: nothing stored yet. */
    constructor (props: seq<Prop>, additional: Typ)
      ensures Valid() && this.props == props && this.additional == additional
      ensures jsonToJS == None && jsToJSON == None
    {
      this.props := props;
      this.additional := additional;
      jsonToJS := None;
      jsToJSON := None;
    }

    /** `jsonToJSProps(typ)`: the table by JSON name, built once. */
    method JsonToJSProps() returns (t: PropTable)
      requires Valid()
      modifies this`jsonToJS
      ensures Valid() && t == Table(props, ToJs) && jsonToJS == Some(t)
      ensures old(jsonToJS).Some? ==> jsonToJS == old(jsonToJS)
    {
      if jsonToJS.None? {
        var built := BuildTable(props, ToJs);
        jsonToJS := Some(built);
      }
      t := jsonToJS.value;
    }

    /** `jsToJSONProps(typ)`: the table by JavaScript name, built once. */
    method JsToJSONProps() returns (t: PropTable)
      requires Valid()
      modifies this`jsToJSON
      ensures Valid() && t == Table(props, ToJson) && jsToJSON == Some(t)
      ensures old(jsToJSON).Some? ==> jsToJSON == old(jsToJSON)
    {
      if jsToJSON.None? {
        var built := BuildTable(props, ToJson);
        jsToJSON := Some(built);
      }
      t := jsToJSON.value;
    }
  }

  // ---------------------------------------------------------------------------
  // transform
  // ---------------------------------------------------------------------------

  /** `typeMap[name]`: a missing name reads `undefined`, a primitive descriptor. */
  function Lookup(env: Env, name: string): Typ
  {
    if name in env then env[name] else TPrim(KUndefined)
  }

  /** The `while` loop that replaces a ref by the descriptor it names until the descriptor
      is no ref, following at most `fuel` refs. */
  function Resolve(typ: Typ, env: Env, fuel: nat): (r: Option<Typ>)
    ensures r.Some? ==> !r.value.TRef?
    decreases fuel
  {
    if !typ.TRef? then Some(typ)
    else if fuel == 0 then None
    else Resolve(Lookup(env, typ.name), env, fuel - 1)
  }

  /** The refs each nested value may follow: one per name in the map and one more for a
      missing name. */
  function Budget(env: Env): nat
  {
    |env| + 1
  }

  /** Ordering of the two mutually recursive functions below: a value's `undefined`
      properties come after the value itself. */
  function Rank(val: Json): nat
  {
    if val.JUndefined? then 0 else 1
  }

  /** `transform`: "any" passes everything, null accepts only null,
      false nothing; refs are resolved first and the rest is dispatched. */
  function Transform(val: Json, typ: Typ, env: Env, dir: Direction, fuel: nat): Result<Json>
    decreases Rank(val), val, fuel, typ, 3
  {
    match typ
    case TAny => Success(val)
    case TNull => if val == JNull then Success(val) else Invalid
    case TFalse => Invalid
    case TRef(_) =>
      if fuel == 0 then Invalid
      else
        (match Resolve(typ, env, fuel)
         case None => Invalid
         case Some(t) => Dispatch(val, t, env, dir, fuel - 1))
    case _ => Dispatch(val, typ, env, dir, fuel)
  }

  /** The part of `transform` after the ref loop, which does not test for "any", null or
      false again: "any" is then a string descriptor, false a boolean one, and null throws
      when its `ref` is read. */
  function Dispatch(val: Json, typ: Typ, env: Env, dir: Direction, fuel: nat): Result<Json>
    decreases Rank(val), val, fuel, typ, 2
  {
    match typ
    case TAny => Primitive(KString, val)
    case TNull => Invalid
    case TFalse => Primitive(KBoolean, val)
    case TPrim(k) => Primitive(k, val)
    case TEnum(cases) => if val.JStr? && val.s in cases then Success(val) else Invalid
    case TRef(_) => Invalid
    case TLiteral(_) => Invalid
    case TUnion(ms) =>
      FirstSuccess(seq(|ms|, i requires 0 <= i < |ms| => Transform(val, ms[i], env, dir, fuel)))
    case TArray(item) =>
      if !val.JArr? then Invalid
      else AllSucceed(seq(|val.items|, i requires 0 <= i < |val.items| =>
                            Transform(val.items[i], item, env, dir, Budget(env))))
    case TObject(props, additional) => ObjectResult(val, props, additional, env, dir, fuel)
  }

  /** `transformObject`: rejects what is not a plain
      object; otherwise each declared property (a missing one as `undefined`) is
      transformed and stored under its name in the other direction, then each undeclared
      key is transformed against `additional` and stored under its own name. */
  function ObjectResult(val: Json, props: seq<Prop>, additional: Typ, env: Env, dir: Direction, fuel: nat): Result<Json>
    decreases Rank(val), val, fuel, TObject(props, additional), 1
  {
    if !val.JObj? then Invalid
    else BuildObject(Declared(val, props, additional, env, dir, fuel), Extra(val, props, additional, env, dir, fuel))
  }

  /** Each declared name of the table in order, with the key it is stored under and the
      outcome of transforming its value (`undefined` when the object lacks it). */
  function Declared(val: Json, props: seq<Prop>, additional: Typ, env: Env, dir: Direction, fuel: nat)
    : (d: seq<(string, Result<Json>)>)
    requires val.JObj?
    ensures |d| == |Table(props, dir).names|
    decreases Rank(val), val, fuel, TObject(props, additional), 0
  {
    var t := Table(props, dir);
    seq(|t.names|, i requires 0 <= i < |t.names| =>
      var e := t.entries[t.names[i]];
      (e.key, if t.names[i] in val.fields then Transform(val.fields[t.names[i]], e.typ, env, dir, Budget(env))
              else Transform(JUndefined, e.typ, env, dir, Budget(env))))
  }

  /** Each key the table does not declare, with the outcome of transforming its value
      against `additional`. */
  function Extra(val: Json, props: seq<Prop>, additional: Typ, env: Env, dir: Direction, fuel: nat)
    : (x: map<string, Result<Json>>)
    requires val.JObj?
    ensures forall k :: k in x <==> k in val.fields && k !in Table(props, dir).entries
    decreases Rank(val), val, fuel, TObject(props, additional), 0
  {
    var t := Table(props, dir);
    map k | k in val.fields && k !in t.entries :: Transform(val.fields[k], additional, env, dir, Budget(env))
  }

  /** The object's own value under `key`, or `undefined` when it has no such property. */
  function OwnValue(fields: map<string, Json>, key: string): Json
  {
    if key in fields then fields[key] else JUndefined
  }

  /** `transformPrimitive`: the value itself when its `typeof` matches. */
  function Primitive(k: Kind, val: Json): Result<Json>
  {
    if TypeOf(val) == Some(k) then Success(val) else Invalid
  }

  /** The first success of the members tried in order, or an error when none succeeds. */
  function FirstSuccess(rs: seq<Result<Json>>): Result<Json>
  {
    if rs == [] then Invalid else if rs[0].Success? then rs[0] else FirstSuccess(rs[1..])
  }

  /** Mapping `transform` over an array: the transformed elements in order, unless one
      of them throws. */
  function AllSucceed(rs: seq<Result<Json>>): Result<Json>
  {
    if forall i :: 0 <= i < |rs| ==> rs[i].Success? then
      Success(JArr(seq(|rs|, i requires 0 <= i < |rs| => rs[i].value)))
    else Invalid
  }

  /** The declared properties assigned in table order (a later one overwriting an earlier
      one under the same key), then the extra keys, unless a transform throws. */
  function BuildObject(declared: seq<(string, Result<Json>)>, extra: map<string, Result<Json>>): Result<Json>
  {
    if (forall i :: 0 <= i < |declared| ==> declared[i].1.Success?) && (forall k :: k in extra ==> extra[k].Success?) then
      Success(JObj(Assign(declared) + ExtraValues(extra)))
    else Invalid
  }

  /** Each declared property's transformed value stored under its key, in table order. */
  function Assign(declared: seq<(string, Result<Json>)>): map<string, Json>
    requires forall i :: 0 <= i < |declared| ==> declared[i].1.Success?
  {
    if declared == [] then map[]
    else Assign(declared[..|declared| - 1])[declared[|declared| - 1].0 := declared[|declared| - 1].1.value]
  }

  /** The values of the extra keys, each stored under its own name. */
  function ExtraValues(extra: map<string, Result<Json>>): map<string, Json>
    requires forall k :: k in extra ==> extra[k].Success?
  {
    map k | k in extra :: extra[k].value
  }

  // ---------------------------------------------------------------------------
  // The loops of transform
  // ---------------------------------------------------------------------------

  /** The ref loop of `transform`. */
  method ResolveRef(typ: Typ, env: Env, fuel: nat) returns (r: Option<Typ>)
    ensures r == Resolve(typ, env, fuel)
  {
    var t, left := typ, fuel;
    while t.TRef?
      invariant Resolve(t, env, left) == Resolve(typ, env, fuel)
      decreases left
    {
      if left == 0 {
        return None;
      }
      t, left := Lookup(env, t.name), left - 1;
    }
    r := Some(t);
  }

  /** `transformUnion`: each member tried in order, an error swallowed, the first success
      returned; an error when every member fails. */
  method TransformUnion(members: seq<Typ>, val: Json, env: Env, dir: Direction, fuel: nat) returns (r: Result<Json>)
    ensures r == Dispatch(val, TUnion(members), env, dir, fuel)
    ensures r.Success? <==> exists i :: 0 <= i < |members| && Transform(val, members[i], env, dir, fuel).Success?
    ensures r.Success? ==>
      exists i :: (0 <= i < |members| && r == Transform(val, members[i], env, dir, fuel)
                   && forall j :: 0 <= j < i ==> Transform(val, members[j], env, dir, fuel).Failure?)
  {
    ghost var rs := seq(|members|, i requires 0 <= i < |members| => Transform(val, members[i], env, dir, fuel));
    var i := 0;
    while i < |members|
      invariant 0 <= i <= |members|
      invariant forall j :: 0 <= j < i ==> Transform(val, members[j], env, dir, fuel).Failure?
      invariant FirstSuccess(rs) == FirstSuccess(rs[i..])
    {
      var attempt := Transform(val, members[i], env, dir, fuel);
      if attempt.Success? {
        assert rs[i..][0] == attempt;
        return attempt;
      }
      assert rs[i..][1..] == rs[i + 1..];
      i := i + 1;
    }
    r := Invalid;
  }

  /** `transformObject`: rejects what is not a plain object, then transforms each declared
      property (a missing one as `undefined`) under its new name, then each extra key
      against `additional`. */
  method TransformObject(props: seq<Prop>, additional: Typ, val: Json, env: Env, dir: Direction, fuel: nat)
    returns (r: Result<Json>)
    ensures r == ObjectResult(val, props, additional, env, dir, fuel)
  {
    if !val.JObj? {
      return Invalid;
    }
    var t := Table(props, dir);
    DeclaredMapped(val, props, additional, env, dir, fuel);
    var declared := TransformDeclared(val.fields, t, (v, typ) => Transform(v, typ, env, dir, Budget(env)),
                                      Declared(val, props, additional, env, dir, fuel));
    if declared.None? {
      return Invalid;
    }
    ExtraMapped(val, props, additional, env, dir, fuel);
    var all := TransformExtras(declared.value, val.fields, t.entries.Keys, v => Transform(v, additional, env, dir, Budget(env)),
                               Extra(val, props, additional, env, dir, fuel));
    if all.None? {
      return Invalid;
    }
    r := Success(JObj(all.value));
  }

  /** The first `forEach` of `transformObject`: each name of the table in order, its own
      value in `fields` (`undefined` when missing) passed through `transform` with the
      name's descriptor and stored under the other name; `declared` holds the outcomes. */
  method TransformDeclared(fields: map<string, Json>, t: PropTable, transform: (Json, Typ) -> Result<Json>,
                           ghost declared: seq<(string, Result<Json>)>)
    returns (r: Option<map<string, Json>>)
    requires forall i :: 0 <= i < |t.names| ==> t.names[i] in t.entries
    requires |declared| == |t.names|
    requires forall i :: 0 <= i < |t.names| ==>
      declared[i] == (t.entries[t.names[i]].key, transform(OwnValue(fields, t.names[i]), t.entries[t.names[i]].typ))
    ensures r.Some? <==> forall i :: 0 <= i < |declared| ==> declared[i].1.Success?
    ensures r.Some? ==> r.value == Assign(declared)
  {
    var result: map<string, Json> := map[];
    var i := 0;
    while i < |t.names|
      invariant 0 <= i <= |t.names|
      invariant forall j :: 0 <= j < i ==> declared[j].1.Success?
      invariant result == Assign(declared[..i])
    {
      var name := t.names[i];
      var e := t.entries[name];
      var x := transform(OwnValue(fields, name), e.typ);
      if x.Failure? {
        assert declared[i].1.Failure?;
        return None;
      }
      AssignStep(declared, i);
      result := result[e.key := x.value];
      i := i + 1;
    }
    assert declared[..|t.names|] == declared;
    r := Some(result);
  }

  /** The second `forEach` of `transformObject`: each key of `fields` the table does not
      declare, its value passed through `transform` and stored under its own name over
      `base`; `extra` holds the outcomes. */
  method TransformExtras(base: map<string, Json>, fields: map<string, Json>, declared: set<string>,
                         transform: Json -> Result<Json>, ghost extra: map<string, Result<Json>>)
    returns (r: Option<map<string, Json>>)
    requires forall k :: k in extra <==> k in fields && k !in declared
    requires forall k :: k in extra ==> extra[k] == transform(fields[k])
    ensures r.Some? <==> forall k :: k in extra ==> extra[k].Success?
    ensures r.Some? ==> r.value == base + ExtraValues(extra)
  {
    var keys := set k | k in fields && k !in declared;
    ghost var done: map<string, Result<Json>> := map[];
    var result := base;
    while keys != {}
      invariant keys !! done.Keys && keys + done.Keys == extra.Keys
      invariant forall k :: k in done ==> done[k] == extra[k] && done[k].Success?
      invariant result == base + ExtraValues(done)
      decreases keys
    {
      var k :| k in keys;
      var x := transform(fields[k]);
      if x.Failure? {
        return None;
      }
      ExtrasStep(base, keys, done, extra, k);
      result := result[k := x.value];
      keys, done := keys - {k}, done[k := extra[k]];
    }
    ExtrasDone(done, extra);
    r := Some(result);
  }

  // ---------------------------------------------------------------------------
  // Properties of transform
  // ---------------------------------------------------------------------------

  /** A primitive descriptor returns the value unchanged exactly when its `typeof` matches,
      and "any" passes every value through. */
  lemma PrimitiveLaws(val: Json, k: Kind, env: Env, dir: Direction, fuel: nat)
    ensures Transform(val, TPrim(k), env, dir, fuel).Success? <==> TypeOf(val) == Some(k)
    ensures Transform(val, TPrim(k), env, dir, fuel).Success? ==> Transform(val, TPrim(k), env, dir, fuel).value == val
    ensures Transform(val, TAny, env, dir, fuel) == Success(val)
  {
  }

  /** A null descriptor accepts only null, false accepts nothing, and an enum accepts
      exactly its cases, each returned unchanged. */
  lemma NullFalseEnumLaws(val: Json, cases: seq<string>, env: Env, dir: Direction, fuel: nat)
    ensures Transform(val, TNull, env, dir, fuel).Success? <==> val == JNull
    ensures Transform(val, TFalse, env, dir, fuel).Failure?
    ensures Transform(val, TEnum(cases), env, dir, fuel).Success? <==> val.JStr? && val.s in cases
    ensures Transform(val, TEnum(cases), env, dir, fuel).Success? ==> Transform(val, TEnum(cases), env, dir, fuel).value == val
  {
  }

  /** An array descriptor rejects every non-array; an array is accepted exactly when each
      element is, and the result holds the transformed elements in order. */
  lemma ArrayLaws(val: Json, item: Typ, env: Env, dir: Direction, fuel: nat)
    ensures !val.JArr? ==> Transform(val, TArray(item), env, dir, fuel).Failure?
    ensures val.JArr? ==>
      var r := Transform(val, TArray(item), env, dir, fuel);
      (r.Success? <==> forall i :: 0 <= i < |val.items| ==> Transform(val.items[i], item, env, dir, Budget(env)).Success?)
      && (r.Success? ==>
            (r.value.JArr? && |r.value.items| == |val.items|
             && forall i :: 0 <= i < |val.items| ==>
                  r.value.items[i] == Transform(val.items[i], item, env, dir, Budget(env)).value))
  {
    if val.JArr? {
      var rs := seq(|val.items|, i requires 0 <= i < |val.items| => Transform(val.items[i], item, env, dir, Budget(env)));
      assert Transform(val, TArray(item), env, dir, fuel) == AllSucceed(rs);
      assert forall i :: 0 <= i < |val.items| ==> rs[i] == Transform(val.items[i], item, env, dir, Budget(env));
    }
  }

  /** An object descriptor rejects null, arrays and primitives. */
  lemma ObjectRejectsNonObjects(val: Json, props: seq<Prop>, additional: Typ, env: Env, dir: Direction, fuel: nat)
    requires !val.JObj?
    ensures Transform(val, TObject(props, additional), env, dir, fuel).Failure?
  {
    assert Transform(val, TObject(props, additional), env, dir, fuel) == ObjectResult(val, props, additional, env, dir, fuel);
  }

  /** A declared property the value lacks is transformed as `undefined`, so an object
      missing a property of a string, number or boolean descriptor is rejected. */
  lemma MissingPropertyFails(val: Json, props: seq<Prop>, additional: Typ, env: Env, dir: Direction, fuel: nat,
                             i: nat, k: Kind)
    requires val.JObj? && i < |props| && props[i].typ == TPrim(k) && k != KUndefined
    requires NameOf(props[i], dir) !in val.fields
    requires forall j :: i < j < |props| ==> NameOf(props[j], dir) != NameOf(props[i], dir)
    ensures Transform(val, TObject(props, additional), env, dir, fuel).Failure?
  {
    var t := Table(props, dir);
    var n := NameOf(props[i], dir);
    TableLast(props, dir, i);
    var p := IndexOf(t.names, n);
    DeclaredAt(val, props, additional, env, dir, fuel, p);
    PrimitiveLaws(JUndefined, k, env, dir, Budget(env));
    BuildObjectFails(Declared(val, props, additional, env, dir, fuel), Extra(val, props, additional, env, dir, fuel), p);
    assert Transform(val, TObject(props, additional), env, dir, fuel) == ObjectResult(val, props, additional, env, dir, fuel);
  }

  /** A position of an element known to be in a sequence. */
  lemma IndexOf<T>(s: seq<T>, x: T) returns (p: nat)
    requires x in s
    ensures p < |s| && s[p] == x
  {
    p :| 0 <= p < |s| && s[p] == x;
  }

  /** Storing one more successful extra value keeps the invariant of `TransformExtras`. */
  lemma ExtrasStep(base: map<string, Json>, keys: set<string>, done: map<string, Result<Json>>,
                   extra: map<string, Result<Json>>, k: string)
    requires keys !! done.Keys && keys + done.Keys == extra.Keys && k in keys
    requires forall k :: k in done ==> done[k] == extra[k] && done[k].Success?
    requires extra[k].Success?
    ensures (keys - {k}) !! done[k := extra[k]].Keys && (keys - {k}) + done[k := extra[k]].Keys == extra.Keys
    ensures forall k' :: k' in done[k := extra[k]] ==> done[k := extra[k]][k'] == extra[k'] && done[k := extra[k]][k'].Success?
    ensures base + ExtraValues(done[k := extra[k]]) == (base + ExtraValues(done))[k := extra[k].value]
  {
  }

  /** Assigning one more declared property. */
  lemma AssignStep(declared: seq<(string, Result<Json>)>, i: nat)
    requires i < |declared| && forall j :: 0 <= j <= i ==> declared[j].1.Success?
    ensures Assign(declared[..i + 1]) == Assign(declared[..i])[declared[i].0 := declared[i].1.value]
  {
    assert declared[..i + 1][..i] == declared[..i];
  }

  /** The outcome recorded for the `i`-th declared name is its own value (`undefined` when
      the object lacks it) transformed against its descriptor, under the other name. */
  lemma DeclaredAt(val: Json, props: seq<Prop>, additional: Typ, env: Env, dir: Direction, fuel: nat, i: nat)
    requires val.JObj? && i < |Table(props, dir).names|
    ensures var t := Table(props, dir);
      var n := t.names[i];
      Declared(val, props, additional, env, dir, fuel)[i]
      == (t.entries[n].key, Transform(OwnValue(val.fields, n), t.entries[n].typ, env, dir, Budget(env)))
  {
  }

  /** `DeclaredAt` for every position at once. */
  lemma DeclaredMapped(val: Json, props: seq<Prop>, additional: Typ, env: Env, dir: Direction, fuel: nat)
    requires val.JObj?
    ensures var t := Table(props, dir);
      var d := Declared(val, props, additional, env, dir, fuel);
      forall i :: 0 <= i < |t.names| ==>
        d[i] == (t.entries[t.names[i]].key, Transform(OwnValue(val.fields, t.names[i]), t.entries[t.names[i]].typ, env, dir, Budget(env)))
  {
    forall i | 0 <= i < |Table(props, dir).names| {
      DeclaredAt(val, props, additional, env, dir, fuel, i);
    }
  }

  /** Every extra key's outcome is its value transformed against `additional`. */
  lemma ExtraMapped(val: Json, props: seq<Prop>, additional: Typ, env: Env, dir: Direction, fuel: nat)
    requires val.JObj?
    ensures var x := Extra(val, props, additional, env, dir, fuel);
      forall k :: k in x ==> x[k] == Transform(val.fields[k], additional, env, dir, Budget(env))
  {
  }

  /** The outcome recorded for an extra key is its value transformed against `additional`. */
  lemma ExtraAt(val: Json, props: seq<Prop>, additional: Typ, env: Env, dir: Direction, fuel: nat, k: string)
    requires val.JObj? && k in val.fields && k !in Table(props, dir).entries
    ensures k in Extra(val, props, additional, env, dir, fuel)
    ensures Extra(val, props, additional, env, dir, fuel)[k] == Transform(val.fields[k], additional, env, dir, Budget(env))
  {
  }

  /** Once every extra key is stored, the stored outcomes are all of them. */
  lemma ExtrasDone(done: map<string, Result<Json>>, extra: map<string, Result<Json>>)
    requires done.Keys == extra.Keys
    requires forall k :: k in done ==> done[k] == extra[k]
    ensures done == extra
  {
  }

  /** One declared property that fails makes the whole object fail. */
  lemma BuildObjectFails(declared: seq<(string, Result<Json>)>, extra: map<string, Result<Json>>, p: nat)
    requires p < |declared| && declared[p].1.Failure?
    ensures BuildObject(declared, extra).Failure?
  {
  }

  /** A key the descriptor does not declare is transformed against `additional`; when that
      rejects it, the object is rejected. */
  lemma ExtraKeyFails(val: Json, props: seq<Prop>, additional: Typ, env: Env, dir: Direction, fuel: nat, k: string)
    requires val.JObj? && k in val.fields && k !in Table(props, dir).entries
    requires Transform(val.fields[k], additional, env, dir, Budget(env)).Failure?
    ensures Transform(val, TObject(props, additional), env, dir, fuel).Failure?
  {
    assert Transform(val, TObject(props, additional), env, dir, fuel) == ObjectResult(val, props, additional, env, dir, fuel);
    assert Extra(val, props, additional, env, dir, fuel)[k].Failure?;
  }

  /** A union returns the result of its first member that accepts the value, and fails
      exactly when every member does. */
  lemma UnionLaws(val: Json, members: seq<Typ>, env: Env, dir: Direction, fuel: nat)
    ensures var r := Transform(val, TUnion(members), env, dir, fuel);
            (r.Success? <==> exists i :: 0 <= i < |members| && Transform(val, members[i], env, dir, fuel).Success?)
            && (r.Success? ==>
                  exists i :: (0 <= i < |members| && r == Transform(val, members[i], env, dir, fuel)
                               && forall j :: 0 <= j < i ==> Transform(val, members[j], env, dir, fuel).Failure?))
  {
    var rs := seq(|members|, i requires 0 <= i < |members| => Transform(val, members[i], env, dir, fuel));
    assert Transform(val, TUnion(members), env, dir, fuel) == FirstSuccess(rs);
    FirstSuccessLaws(rs);
    if exists i :: 0 <= i < |members| && Transform(val, members[i], env, dir, fuel).Success? {
      var i :| 0 <= i < |members| && Transform(val, members[i], env, dir, fuel).Success?;
      assert rs[i].Success?;
    }
    if FirstSuccess(rs).Success? {
      var i :| 0 <= i < |rs| && FirstSuccess(rs) == rs[i] && forall j :: 0 <= j < i ==> rs[j].Failure?;
      assert rs[i] == Transform(val, members[i], env, dir, fuel);
      assert forall j :: 0 <= j < i ==> rs[j] == Transform(val, members[j], env, dir, fuel);
    }
  }

  lemma {:induction false} FirstSuccessLaws(rs: seq<Result<Json>>)
    ensures FirstSuccess(rs).Success? <==> exists i :: 0 <= i < |rs| && rs[i].Success?
    ensures FirstSuccess(rs).Success? ==>
      exists i :: (0 <= i < |rs| && FirstSuccess(rs) == rs[i] && forall j :: 0 <= j < i ==> rs[j].Failure?)
  {
    if rs != [] && !rs[0].Success? {
      FirstSuccessLaws(rs[1..]);
      if exists i :: 0 <= i < |rs| && rs[i].Success? {
        var i :| 0 <= i < |rs| && rs[i].Success?;
        assert rs[1..][i - 1] == rs[i];
      }
      if FirstSuccess(rs).Success? {
        var i :| 0 <= i < |rs[1..]| && FirstSuccess(rs[1..]) == rs[1..][i]
          && forall j :: 0 <= j < i ==> rs[1..][j].Failure?;
        assert forall j :: 1 <= j < i + 1 ==> rs[j] == rs[1..][j - 1];
      }
    }
  }

  /** A ref whose name the map holds is checked against that descriptor as soon as it is
      no ref itself; a name the map lacks reads `undefined` and accepts only `undefined`. */
  lemma RefLaws(val: Json, name: string, env: Env, dir: Direction, fuel: nat)
    requires fuel >= 1
    ensures name in env && !env[name].TRef? ==>
      Transform(val, TRef(name), env, dir, fuel) == Dispatch(val, env[name], env, dir, fuel - 1)
    ensures name !in env ==>
      (Transform(val, TRef(name), env, dir, fuel).Success? <==> val == JUndefined)
  {
    if name in env && !env[name].TRef? {
      assert Resolve(TRef(name), env, fuel) == Resolve(env[name], env, fuel - 1) == Some(env[name]);
    }
    if name !in env {
      assert Resolve(TRef(name), env, fuel) == Resolve(TPrim(KUndefined), env, fuel - 1) == Some(TPrim(KUndefined));
    }
  }

  // ---------------------------------------------------------------------------
  // cast and uncast
  // ---------------------------------------------------------------------------

  /** Every property of every object descriptor inside `typ` has the same name in JSON and
      in JavaScript. */
  predicate Symmetric(typ: Typ)
  {
    match typ
    case TUnion(ms) => forall i :: 0 <= i < |ms| ==> Symmetric(ms[i])
    case TArray(item) => Symmetric(item)
    case TObject(props, additional) =>
      Symmetric(additional) && forall i :: 0 <= i < |props| ==> props[i].json == props[i].js && Symmetric(props[i].typ)
    case _ => true
  }

  predicate SymmetricEnv(env: Env)
  {
    forall n :: n in env ==> Symmetric(env[n])
  }

  /** With equal names in both directions the two tables are the same. */
  lemma {:induction false} SymmetricTables(props: seq<Prop>)
    requires forall i :: 0 <= i < |props| ==> props[i].json == props[i].js
    ensures Table(props, ToJs) == Table(props, ToJson)
  {
    if props != [] {
      SymmetricTables(props[..|props| - 1]);
    }
  }

  lemma {:induction false} ResolveSymmetric(typ: Typ, env: Env, fuel: nat)
    requires Symmetric(typ) && SymmetricEnv(env)
    ensures Resolve(typ, env, fuel).Some? ==> Symmetric(Resolve(typ, env, fuel).value)
    decreases fuel
  {
    if typ.TRef? && fuel > 0 {
      ResolveSymmetric(Lookup(env, typ.name), env, fuel - 1);
    }
  }

  /** On symmetric descriptors the direction does not matter: `transform` gives the same
      result whichever table it uses. */
  lemma {:induction false} TransformSymmetric(val: Json, typ: Typ, env: Env, fuel: nat)
    requires Symmetric(typ) && SymmetricEnv(env)
    ensures Transform(val, typ, env, ToJs, fuel) == Transform(val, typ, env, ToJson, fuel)
    decreases Rank(val), val, fuel, typ, 3
  {
    match typ
    case TAny =>
    case TNull =>
    case TFalse =>
    case TRef(_) =>
      if fuel > 0 {
        ResolveSymmetric(typ, env, fuel);
        match Resolve(typ, env, fuel)
        case None =>
        case Some(t) => DispatchSymmetric(val, t, env, fuel - 1);
      }
    case _ => DispatchSymmetric(val, typ, env, fuel);
  }

  lemma {:induction false} DispatchSymmetric(val: Json, typ: Typ, env: Env, fuel: nat)
    requires Symmetric(typ) && SymmetricEnv(env)
    ensures Dispatch(val, typ, env, ToJs, fuel) == Dispatch(val, typ, env, ToJson, fuel)
    decreases Rank(val), val, fuel, typ, 2
  {
    match typ
    case TUnion(ms) =>
      forall i | 0 <= i < |ms| ensures Transform(val, ms[i], env, ToJs, fuel) == Transform(val, ms[i], env, ToJson, fuel) {
        TransformSymmetric(val, ms[i], env, fuel);
      }
      assert seq(|ms|, i requires 0 <= i < |ms| => Transform(val, ms[i], env, ToJs, fuel))
          == seq(|ms|, i requires 0 <= i < |ms| => Transform(val, ms[i], env, ToJson, fuel));
    case TArray(item) =>
      if val.JArr? {
        forall i | 0 <= i < |val.items|
          ensures Transform(val.items[i], item, env, ToJs, Budget(env)) == Transform(val.items[i], item, env, ToJson, Budget(env))
        {
          TransformSymmetric(val.items[i], item, env, Budget(env));
        }
        assert seq(|val.items|, i requires 0 <= i < |val.items| => Transform(val.items[i], item, env, ToJs, Budget(env)))
            == seq(|val.items|, i requires 0 <= i < |val.items| => Transform(val.items[i], item, env, ToJson, Budget(env)));
      }
    case TObject(props, additional) => ObjectSymmetric(val, props, additional, env, fuel);
    case _ =>
  }

  lemma {:induction false} ObjectSymmetric(val: Json, props: seq<Prop>, additional: Typ, env: Env, fuel: nat)
    requires Symmetric(TObject(props, additional)) && SymmetricEnv(env)
    ensures ObjectResult(val, props, additional, env, ToJs, fuel) == ObjectResult(val, props, additional, env, ToJson, fuel)
    decreases Rank(val), val, fuel, TObject(props, additional), 1
  {
    if val.JObj? {
      DeclaredSymmetric(val, props, additional, env, fuel);
      ExtraSymmetric(val, props, additional, env, fuel);
    }
  }

  lemma {:induction false} DeclaredSymmetric(val: Json, props: seq<Prop>, additional: Typ, env: Env, fuel: nat)
    requires val.JObj? && Symmetric(TObject(props, additional)) && SymmetricEnv(env)
    ensures Declared(val, props, additional, env, ToJs, fuel) == Declared(val, props, additional, env, ToJson, fuel)
    decreases Rank(val), val, fuel, TObject(props, additional), 0
  {
    SymmetricTables(props);
    var t := Table(props, ToJs);
    var d, d' := Declared(val, props, additional, env, ToJs, fuel), Declared(val, props, additional, env, ToJson, fuel);
    forall i | 0 <= i < |t.names| ensures d[i] == d'[i] {
      var n := t.names[i];
      TableTypes(props, ToJs, n);
      if n in val.fields {
        TransformSymmetric(val.fields[n], t.entries[n].typ, env, Budget(env));
      } else {
        TransformSymmetric(JUndefined, t.entries[n].typ, env, Budget(env));
      }
    }
  }

  lemma {:induction false} ExtraSymmetric(val: Json, props: seq<Prop>, additional: Typ, env: Env, fuel: nat)
    requires val.JObj? && Symmetric(TObject(props, additional)) && SymmetricEnv(env)
    ensures Extra(val, props, additional, env, ToJs, fuel) == Extra(val, props, additional, env, ToJson, fuel)
    decreases Rank(val), val, fuel, TObject(props, additional), 0
  {
    SymmetricTables(props);
    var x, x' := Extra(val, props, additional, env, ToJs, fuel), Extra(val, props, additional, env, ToJson, fuel);
    assert x.Keys == x'.Keys;
    forall k | k in x ensures x[k] == x'[k] {
      ExtraAt(val, props, additional, env, ToJs, fuel, k);
      ExtraAt(val, props, additional, env, ToJson, fuel, k);
      TransformSymmetric(val.fields[k], additional, env, Budget(env));
    }
    ExtrasDone(x, x');
  }

  // ---------------------------------------------------------------------------
  // Values that come back unchanged
  // ---------------------------------------------------------------------------

  /** Descriptors that reject `undefined`, so that a declared property of this type
      must be present for its object to be accepted. */
  predicate NeverUndefined(typ: Typ, env: Env)
  {
    match typ
    case TNull => true
    case TFalse => true
    case TPrim(k) => k != KUndefined
    case TEnum(_) => true
    case TArray(_) => true
    case TObject(_, _) => true
    case TRef(name) => name in env && env[name].TObject?
    case _ => false
  }

  /** Descriptors whose object properties keep their names in both directions and are
      all of a type that rejects `undefined`. */
  predicate Preserving(typ: Typ, env: Env)
  {
    match typ
    case TUnion(ms) => forall i :: 0 <= i < |ms| ==> Preserving(ms[i], env)
    case TArray(item) => Preserving(item, env)
    case TObject(props, additional) =>
      Preserving(additional, env)
      && forall i :: 0 <= i < |props| ==>
           props[i].json == props[i].js && Preserving(props[i].typ, env) && NeverUndefined(props[i].typ, env)
    case _ => true
  }

  predicate PreservingEnv(env: Env)
  {
    forall n :: n in env ==> Preserving(env[n], env)
  }

  lemma NeverUndefinedRejects(typ: Typ, env: Env, dir: Direction, fuel: nat)
    requires NeverUndefined(typ, env) && fuel >= 1
    ensures Transform(JUndefined, typ, env, dir, fuel).Failure?
  {
    match typ
    case TRef(name) =>
      RefLaws(JUndefined, name, env, dir, fuel);
      ObjectRejectsNonObjects(JUndefined, env[name].props, env[name].additional, env, dir, fuel - 1);
    case TPrim(k) => PrimitiveLaws(JUndefined, k, env, dir, fuel);
    case TArray(item) => ArrayLaws(JUndefined, item, env, dir, fuel);
    case TObject(props, additional) => ObjectRejectsNonObjects(JUndefined, props, additional, env, dir, fuel);
    case TEnum(cases) => NullFalseEnumLaws(JUndefined, cases, env, dir, fuel);
    case TNull => NullFalseEnumLaws(JUndefined, [], env, dir, fuel);
    case TFalse => NullFalseEnumLaws(JUndefined, [], env, dir, fuel);
    case _ => assert false;
  }

  /** Assigning results under distinct keys stores each result under its own key and
      nothing else. */
  lemma {:induction false} AssignDistinct(declared: seq<(string, Result<Json>)>)
    requires forall i :: 0 <= i < |declared| ==> declared[i].1.Success?
    requires forall i, j :: 0 <= i < j < |declared| ==> declared[i].0 != declared[j].0
    ensures forall k :: k in Assign(declared) <==> exists i :: 0 <= i < |declared| && declared[i].0 == k
    ensures forall i :: 0 <= i < |declared| ==> Assign(declared)[declared[i].0] == declared[i].1.value
  {
    if declared != [] {
      var init := declared[..|declared| - 1];
      AssignDistinct(init);
      assert forall i :: 0 <= i < |init| ==> init[i] == declared[i];
    }
  }

  lemma {:induction false} ResolvePreserving(typ: Typ, env: Env, fuel: nat)
    requires Preserving(typ, env) && PreservingEnv(env)
    ensures Resolve(typ, env, fuel).Some? ==> Preserving(Resolve(typ, env, fuel).value, env)
    decreases fuel
  {
    if typ.TRef? && fuel > 0 {
      ResolvePreserving(Lookup(env, typ.name), env, fuel - 1);
    }
  }

  /** On preserving descriptors `transform` either throws or returns the value it was
      given: every property is stored back under its own name with its own value. */
  lemma {:induction false} TransformIdentity(val: Json, typ: Typ, env: Env, dir: Direction, fuel: nat)
    requires Preserving(typ, env) && PreservingEnv(env)
    ensures Transform(val, typ, env, dir, fuel).Success? ==> Transform(val, typ, env, dir, fuel).value == val
    decreases Rank(val), val, fuel, typ, 3
  {
    match typ
    case TAny =>
    case TNull =>
    case TFalse =>
    case TRef(_) =>
      if fuel > 0 {
        ResolvePreserving(typ, env, fuel);
        match Resolve(typ, env, fuel)
        case None =>
        case Some(t) => DispatchIdentity(val, t, env, dir, fuel - 1);
      }
    case _ => DispatchIdentity(val, typ, env, dir, fuel);
  }

  lemma {:induction false} DispatchIdentity(val: Json, typ: Typ, env: Env, dir: Direction, fuel: nat)
    requires Preserving(typ, env) && PreservingEnv(env)
    ensures Dispatch(val, typ, env, dir, fuel).Success? ==> Dispatch(val, typ, env, dir, fuel).value == val
    decreases Rank(val), val, fuel, typ, 2
  {
    match typ
    case TUnion(ms) =>
      var rs := seq(|ms|, i requires 0 <= i < |ms| => Transform(val, ms[i], env, dir, fuel));
      FirstSuccessLaws(rs);
      if FirstSuccess(rs).Success? {
        var i :| 0 <= i < |rs| && FirstSuccess(rs) == rs[i] && forall j :: 0 <= j < i ==> rs[j].Failure?;
        TransformIdentity(val, ms[i], env, dir, fuel);
      }
    case TArray(item) =>
      if val.JArr? {
        var rs := seq(|val.items|, i requires 0 <= i < |val.items| => Transform(val.items[i], item, env, dir, Budget(env)));
        if AllSucceed(rs).Success? {
          forall i | 0 <= i < |val.items| ensures rs[i].value == val.items[i] {
            TransformIdentity(val.items[i], item, env, dir, Budget(env));
          }
          assert seq(|rs|, i requires 0 <= i < |rs| => rs[i].value) == val.items;
        }
      }
    case TObject(props, additional) => ObjectIdentity(val, props, additional, env, dir, fuel);
    case _ =>
  }

  lemma {:induction false} ObjectIdentity(val: Json, props: seq<Prop>, additional: Typ, env: Env, dir: Direction, fuel: nat)
    requires Preserving(TObject(props, additional), env) && PreservingEnv(env)
    ensures ObjectResult(val, props, additional, env, dir, fuel).Success? ==>
            ObjectResult(val, props, additional, env, dir, fuel).value == val
    decreases Rank(val), val, fuel, TObject(props, additional), 1
  {
    if val.JObj? && ObjectResult(val, props, additional, env, dir, fuel).Success? {
      var t := Table(props, dir);
      var d := Declared(val, props, additional, env, dir, fuel);
      var x := Extra(val, props, additional, env, dir, fuel);
      DeclaredValues(val, props, additional, env, dir, fuel);
      ExtraValuesKept(val, props, additional, env, dir, fuel);
      TableNoDup(props, dir);
      SameFields(val.fields, d, x, t.names, t.entries);
    }
  }

  /** Each declared result is stored under its own name and is that name's value. */
  ghost predicate DeclaredKept(d: seq<(string, Result<Json>)>, names: seq<string>, fields: map<string, Json>)
  {
    |d| == |names|
    && forall i :: 0 <= i < |d| ==>
         d[i].0 == names[i] && names[i] in fields && d[i].1.Success? && d[i].1.value == fields[names[i]]
  }

  /** The extra results are those of the undeclared keys, each that key's value. */
  ghost predicate ExtraKept(x: map<string, Result<Json>>, declared: map<string, Entry>, fields: map<string, Json>)
  {
    (forall k :: k in x <==> k in fields && k !in declared)
    && forall k :: k in x ==> x[k].Success? && x[k].value == fields[k]
  }

  /** Declared results stored under distinct names, each the value of that name, and
      extra results for the remaining keys, each the value of its key, rebuild the
      fields they came from. */
  lemma SameFields(fields: map<string, Json>, d: seq<(string, Result<Json>)>, x: map<string, Result<Json>>,
                   names: seq<string>, declared: map<string, Entry>)
    requires NoDup(names) && (forall n :: n in names <==> n in declared)
    requires DeclaredKept(d, names, fields)
    requires ExtraKept(x, declared, fields)
    ensures Assign(d) + ExtraValues(x) == fields
  {
    DeclaredDistinct(d, names, fields);
    AssignDistinct(d);
    RebuiltKeys(fields, d, x, names, declared);
    RebuiltValues(fields, d, x, names, declared);
    SameMap(Assign(d) + ExtraValues(x), fields);
  }

  lemma DeclaredDistinct(d: seq<(string, Result<Json>)>, names: seq<string>, fields: map<string, Json>)
    requires NoDup(names) && DeclaredKept(d, names, fields)
    ensures forall i :: 0 <= i < |d| ==> d[i].1.Success?
    ensures forall i, j :: 0 <= i < j < |d| ==> d[i].0 != d[j].0
  {
  }

  /** Two maps with the same keys and the same value at each key are equal. */
  lemma SameMap(a: map<string, Json>, b: map<string, Json>)
    requires forall k :: k in a <==> k in b
    requires forall k :: k in a ==> a[k] == b[k]
    ensures a == b
  {
  }

  lemma RebuiltKeys(fields: map<string, Json>, d: seq<(string, Result<Json>)>, x: map<string, Result<Json>>,
                    names: seq<string>, declared: map<string, Entry>)
    requires (forall n :: n in names <==> n in declared) && DeclaredKept(d, names, fields) && ExtraKept(x, declared, fields)
    requires forall k :: k in Assign(d) <==> exists i :: 0 <= i < |d| && d[i].0 == k
    ensures forall k :: k in Assign(d) + ExtraValues(x) <==> k in fields
  {
    forall k ensures k in Assign(d) + ExtraValues(x) <==> k in fields {
      if k in fields && k in declared {
        var i := IndexOf(names, k);
        assert d[i].0 == k;
      }
    }
  }

  lemma RebuiltValues(fields: map<string, Json>, d: seq<(string, Result<Json>)>, x: map<string, Result<Json>>,
                      names: seq<string>, declared: map<string, Entry>)
    requires DeclaredKept(d, names, fields) && ExtraKept(x, declared, fields)
    requires forall k :: k in Assign(d) <==> exists i :: 0 <= i < |d| && d[i].0 == k
    requires forall i :: 0 <= i < |d| ==> Assign(d)[d[i].0] == d[i].1.value
    ensures forall k :: k in Assign(d) + ExtraValues(x) ==> (Assign(d) + ExtraValues(x))[k] == fields[k]
  {
    forall k | k in Assign(d) + ExtraValues(x) ensures (Assign(d) + ExtraValues(x))[k] == fields[k] {
      if k !in x {
        var i :| 0 <= i < |d| && d[i].0 == k;
      }
    }
  }

  /** Under a preserving descriptor each declared name of an accepted object is present,
      stored under itself, with its own value. */
  lemma {:induction false} DeclaredValues(val: Json, props: seq<Prop>, additional: Typ, env: Env, dir: Direction, fuel: nat)
    requires Preserving(TObject(props, additional), env) && PreservingEnv(env)
    requires val.JObj? && ObjectResult(val, props, additional, env, dir, fuel).Success?
    ensures DeclaredKept(Declared(val, props, additional, env, dir, fuel), Table(props, dir).names, val.fields)
    decreases Rank(val), val, fuel, TObject(props, additional), 0
  {
    var t := Table(props, dir);
    var d := Declared(val, props, additional, env, dir, fuel);
    forall i | 0 <= i < |t.names|
      ensures d[i].0 == t.names[i] && t.names[i] in val.fields && d[i].1.Success? && d[i].1.value == val.fields[t.names[i]]
    {
      var n := t.names[i];
      var j := TableEntryOf(props, dir, n);
      DeclaredAt(val, props, additional, env, dir, fuel, i);
      NeverUndefinedRejects(props[j].typ, env, dir, Budget(env));
      assert d[i].1.Success?;
      assert n in val.fields;
      TransformIdentity(val.fields[n], props[j].typ, env, dir, Budget(env));
    }
  }

  /** Under a preserving descriptor each extra key of an accepted object keeps its value. */
  lemma {:induction false} ExtraValuesKept(val: Json, props: seq<Prop>, additional: Typ, env: Env, dir: Direction, fuel: nat)
    requires Preserving(TObject(props, additional), env) && PreservingEnv(env)
    requires val.JObj? && ObjectResult(val, props, additional, env, dir, fuel).Success?
    ensures ExtraKept(Extra(val, props, additional, env, dir, fuel), Table(props, dir).entries, val.fields)
    decreases Rank(val), val, fuel, TObject(props, additional), 0
  {
    var x := Extra(val, props, additional, env, dir, fuel);
    forall k | k in x ensures x[k].Success? && x[k].value == val.fields[k] {
      ExtraAt(val, props, additional, env, dir, fuel, k);
      TransformIdentity(val.fields[k], additional, env, dir, Budget(env));
    }
  }
}
