/** `cast`, `uncast` and the type map of an LDtk level file that `Convert.toLDtk` and
    `Convert.lDtkToJson` check against. */
module LevelTypes {
  import opened Wrappers
  import opened Convert

  /** `cast(val, typ)` against the level file's type map. */
  function Cast(val: Json, typ: Typ): Result<Json>
  {
    Transform(val, typ, TypeMap, ToJs, Budget(TypeMap))
  }

  /** `uncast(val, typ)` against the level file's type map. */
  function Uncast(val: Json, typ: Typ): Result<Json>
  {
    Transform(val, typ, TypeMap, ToJson, Budget(TypeMap))
  }

  /** The descriptors of an LDtk level file and of its entities, by name. */
  const TypeMap: Env := map[
    "LDtk" := LDtkType,
    "LDtkCustomFields" := LDtkCustomFieldsType,
    "Entities" := EntitiesType,
    "Chest" := ChestType,
    "ChestCustomFields" := ChestCustomFieldsType,
    "Door" := DoorType,
    "DoorCustomFields" := DoorCustomFieldsType,
    "Mob" := MobType,
    "MobCustomFields" := MobCustomFieldsType,
    "Patrol" := PatrolType,
    "Player" := PlayerType,
    "PlayerCustomFields" := PlayerCustomFieldsType,
    "NeighbourLevel" := NeighbourLevelType
  ]

  const LDtkType: Typ := O([
    Prop("identifier", "identifier", Str),
    Prop("uniqueIdentifer", "uniqueIdentifer", Str),
    Prop("x", "x", Num),
    Prop("y", "y", Num),
    Prop("width", "width", Num),
    Prop("height", "height", Num),
    Prop("bgColor", "bgColor", Str),
    Prop("neighbourLevels", "neighbourLevels", A(R("NeighbourLevel"))),
    Prop("customFields", "customFields", R("LDtkCustomFields")),
    Prop("layers", "layers", A(Str)),
    Prop("entities", "entities", R("Entities"))
  ], TFalse)
  const LDtkCustomFieldsType: Typ := O([], TFalse)
  const EntitiesType: Typ := O([
    Prop("Player", "Player", A(R("Player"))),
    Prop("Chest", "Chest", A(R("Chest"))),
    Prop("Mob", "Mob", A(R("Mob"))),
    Prop("Door", "Door", A(R("Door")))
  ], TFalse)
  const ChestType: Typ := O(EntityProps("ChestCustomFields"), TFalse)
  const ChestCustomFieldsType: Typ := O([Prop("content", "content", A(Str))], TFalse)
  const DoorType: Typ := O(EntityProps("DoorCustomFields"), TFalse)
  const DoorCustomFieldsType: Typ := O([Prop("locked", "locked", Bool)], TFalse)
  const MobType: Typ := O(EntityProps("MobCustomFields"), TFalse)
  const MobCustomFieldsType: Typ := O([
    Prop("patrol", "patrol", A(R("Patrol"))),
    Prop("loot", "loot", A(Str))
  ], TFalse)
  const PatrolType: Typ := O([Prop("cx", "cx", Num), Prop("cy", "cy", Num)], TFalse)
  const PlayerType: Typ := O(EntityProps("PlayerCustomFields"), TFalse)
  const PlayerCustomFieldsType: Typ := O([Prop("items", "items", A(Str))], TFalse)
  const NeighbourLevelType: Typ := O([Prop("levelIid", "levelIid", Str), Prop("dir", "dir", Str)], TFalse)

  /** The properties the four entity descriptors share, with their own custom fields. */
  function EntityProps(customFields: string): seq<Prop>
  {
    [ Prop("id", "id", Str),
      Prop("iid", "iid", Str),
      Prop("layer", "layer", Str),
      Prop("x", "x", Num),
      Prop("y", "y", Num),
      Prop("width", "width", Num),
      Prop("height", "height", Num),
      Prop("color", "color", Num),
      Prop("customFields", "customFields", R(customFields)) ]
  }

  /** Every descriptor of the map is an object whose extra keys are refused (additional
      false). */
  lemma TypeMapObjects()
    ensures forall n :: n in TypeMap ==> TypeMap[n].TObject? && TypeMap[n].additional == TFalse
  {
  }

  /** Every property of every descriptor of the map has the same name in JSON and in
      JavaScript. */
  lemma TypeMapSymmetric()
    ensures SymmetricEnv(TypeMap)
  {
    LDtkSymmetric();
    LevelSymmetric();
    EntitiesSymmetric();
    CustomFieldsSymmetric();
  }

  lemma LevelSymmetric()
    ensures Symmetric(LDtkCustomFieldsType) && Symmetric(EntitiesType) && Symmetric(NeighbourLevelType)
  {
    var props := EntitiesType.props;
    assert forall i :: 0 <= i < |props| ==> props[i].json == props[i].js;
  }

  lemma LDtkSymmetric()
    ensures Symmetric(LDtkType)
  {
    var props := LDtkType.props;
    assert forall i :: 0 <= i < |props| ==> props[i].json == props[i].js;
  }

  lemma EntitiesSymmetric()
    ensures Symmetric(ChestType) && Symmetric(DoorType) && Symmetric(MobType) && Symmetric(PlayerType)
  {
    EntitySymmetric("ChestCustomFields");
    EntitySymmetric("DoorCustomFields");
    EntitySymmetric("MobCustomFields");
    EntitySymmetric("PlayerCustomFields");
  }

  lemma CustomFieldsSymmetric()
    ensures Symmetric(ChestCustomFieldsType) && Symmetric(DoorCustomFieldsType) && Symmetric(MobCustomFieldsType)
    ensures Symmetric(PatrolType) && Symmetric(PlayerCustomFieldsType)
  {
  }

  lemma EntitySymmetric(customFields: string)
    ensures Symmetric(O(EntityProps(customFields), TFalse))
  {
    var props := EntityProps(customFields);
    assert forall i :: 0 <= i < |props| ==> props[i].json == props[i].js && Symmetric(props[i].typ);
  }

  /** `cast` and `uncast` give the same result on every value and every descriptor whose
      properties keep their names, in particular on refs into the map. */
  lemma CastUncastAgree(val: Json, typ: Typ)
    requires Symmetric(typ)
    ensures Cast(val, typ) == Uncast(val, typ)
  {
    TypeMapSymmetric();
    TransformSymmetric(val, typ, TypeMap, Budget(TypeMap));
  }

  /** Casting to a named descriptor rejects every object with a key the descriptor does not
      declare. */
  lemma CastRejectsExtraKeys(val: Json, name: string, k: string)
    requires name in TypeMap && val.JObj? && k in val.fields
    requires forall i :: 0 <= i < |TypeMap[name].props| ==> TypeMap[name].props[i].json != k
    ensures Cast(val, R(name)).Failure?
  {
    TypeMapObjects();
    var t := TypeMap[name];
    RefLaws(val, name, TypeMap, ToJs, Budget(TypeMap));
    if k in Table(t.props, ToJs).entries {
      TableNames(t.props, ToJs, k);
      assert false;
    }
    ExtraKeyFails(val, t.props, TFalse, TypeMap, ToJs, Budget(TypeMap) - 1, k);
  }

  /** Every descriptor of the map keeps its property names in both directions and
      declares only properties that reject `undefined`: strings, numbers, booleans,
      arrays and refs to object descriptors of the map. */
  lemma TypeMapPreserving()
    ensures PreservingEnv(TypeMap)
  {
    LDtkPreserving();
    LevelPreserving();
    EntityPreserving("ChestCustomFields");
    EntityPreserving("DoorCustomFields");
    EntityPreserving("MobCustomFields");
    EntityPreserving("PlayerCustomFields");
    CustomFieldsPreserving();
  }

  /** The property shapes the level file uses: a name kept in both directions and a
      string, number or boolean, an array of strings or of a named descriptor, or a
      ref to a named descriptor. */
  predicate GoodProp(p: Prop)
  {
    p.json == p.js
    && match p.typ
       case TPrim(k) => k != KUndefined
       case TArray(item) => item == Str || (item.TRef? && item.name in TypeMap)
       case TRef(name) => name in TypeMap
       case _ => false
  }

  lemma GoodPropsPreserving(props: seq<Prop>)
    requires forall i :: 0 <= i < |props| ==> GoodProp(props[i])
    ensures Preserving(O(props, TFalse), TypeMap)
  {
    TypeMapObjects();
    forall i | 0 <= i < |props|
      ensures props[i].json == props[i].js && Preserving(props[i].typ, TypeMap) && NeverUndefined(props[i].typ, TypeMap)
    {
      match props[i].typ
      case TArray(item) => assert Preserving(item, TypeMap);
      case _ =>
    }
  }

  lemma LDtkPreserving()
    ensures Preserving(LDtkType, TypeMap)
  {
    assert "NeighbourLevel" in TypeMap && "LDtkCustomFields" in TypeMap && "Entities" in TypeMap;
    var props := LDtkType.props;
    assert forall i :: 0 <= i < |props| ==> GoodProp(props[i]);
    GoodPropsPreserving(props);
  }

  lemma LevelPreserving()
    ensures Preserving(LDtkCustomFieldsType, TypeMap) && Preserving(EntitiesType, TypeMap)
    ensures Preserving(NeighbourLevelType, TypeMap)
  {
    assert "Player" in TypeMap && "Chest" in TypeMap && "Mob" in TypeMap && "Door" in TypeMap;
    var props := EntitiesType.props;
    assert forall i :: 0 <= i < |props| ==> GoodProp(props[i]);
    GoodPropsPreserving(props);
    GoodPropsPreserving(NeighbourLevelType.props);
  }

  lemma EntityPreserving(customFields: string)
    requires customFields in TypeMap
    ensures Preserving(O(EntityProps(customFields), TFalse), TypeMap)
  {
    var props := EntityProps(customFields);
    assert forall i :: 0 <= i < |props| ==> GoodProp(props[i]);
    GoodPropsPreserving(props);
  }

  lemma CustomFieldsPreserving()
    ensures Preserving(ChestCustomFieldsType, TypeMap) && Preserving(DoorCustomFieldsType, TypeMap)
    ensures Preserving(MobCustomFieldsType, TypeMap) && Preserving(PatrolType, TypeMap)
    ensures Preserving(PlayerCustomFieldsType, TypeMap)
  {
    assert "Patrol" in TypeMap;
    GoodPropsPreserving(ChestCustomFieldsType.props);
    GoodPropsPreserving(DoorCustomFieldsType.props);
    GoodPropsPreserving(MobCustomFieldsType.props);
    GoodPropsPreserving(PatrolType.props);
    GoodPropsPreserving(PlayerCustomFieldsType.props);
  }

  /** `cast` against a descriptor of the map, a ref to one, or any other preserving
      descriptor either throws or returns the very value it was given. */
  lemma CastReturnsInput(val: Json, typ: Typ)
    requires Preserving(typ, TypeMap)
    ensures Cast(val, typ).Success? ==> Cast(val, typ).value == val
  {
    TypeMapPreserving();
    TransformIdentity(val, typ, TypeMap, ToJs, Budget(TypeMap));
  }

  /** The same for `uncast`. */
  lemma UncastReturnsInput(val: Json, typ: Typ)
    requires Preserving(typ, TypeMap)
    ensures Uncast(val, typ).Success? ==> Uncast(val, typ).value == val
  {
    TypeMapPreserving();
    TransformIdentity(val, typ, TypeMap, ToJson, Budget(TypeMap));
  }

  /** What `cast` accepts, `uncast` accepts and turns back into the original value. */
  lemma CastUncastRoundTrip(val: Json, typ: Typ)
    requires Preserving(typ, TypeMap) && Symmetric(typ)
    ensures Cast(val, typ).Success? ==> Uncast(Cast(val, typ).value, typ) == Success(val)
  {
    CastReturnsInput(val, typ);
    CastUncastAgree(val, typ);
  }
}
