/** Permission resolution: a participant's permissions are a stack of layers (conference
    defaults, then the moderator layer, the room layer and the participant's temporary
    permissions), overlaid so that a later layer wins on the same key. A permission set by no
    layer resolves to the default value of its type. */
module PermissionStack {
  import opened Common

  /** A permission value as stored in a layer. */
  datatype PermissionValue = BoolValue(b: bool) | IntValue(i: int) | TextValue(text: string) | NullValue

  datatype ValueType = BoolType | IntType | TextType

  /** A permission: its key and the type of its values. */
  datatype PermissionDescriptor = PermissionDescriptor(key: string, valueType: ValueType)

  /** One layer: the permissions it sets. */
  type Layer = map<string, PermissionValue>

  /** A stored value that does not have the type the permission is read with. */
  datatype PermissionError = ValueTypeMismatch(key: string)

  /** Whether a value has the descriptor's type. */
  predicate ValidateValue(d: PermissionDescriptor, v: PermissionValue)
  {
    match d.valueType
    case BoolType => v.BoolValue?
    case IntType => v.IntValue?
    case TextType => v.TextValue?
  }

  /** The value a permission has when no layer sets it: the default of its type. */
  function DefaultValue(t: ValueType): PermissionValue
  {
    match t
    case BoolType => BoolValue(false)
    case IntType => IntValue(0)
    case TextType => NullValue
  }

  /** All layers overlaid, each over the ones before it. */
  function Flatten(layers: seq<Layer>): Layer
    decreases |layers|
  {
    if layers == [] then map[] else Flatten(layers[..|layers| - 1]) + layers[|layers| - 1]
  }

  /** The value a participant has for a permission. */
  function GetPermissionValue(layers: seq<Layer>, d: PermissionDescriptor): Result<PermissionValue, PermissionError>
  {
    var flat := Flatten(layers);
    if d.key !in flat then Ok(DefaultValue(d.valueType))
    else if ValidateValue(d, flat[d.key]) then Ok(flat[d.key])
    else Err(ValueTypeMismatch(d.key))
  }

  /** The overlaid layers set exactly the keys some layer sets. */
  lemma {:induction false} FlattenKeys(layers: seq<Layer>)
    ensures forall k :: k in Flatten(layers) <==> exists i :: 0 <= i < |layers| && k in layers[i]
    decreases |layers|
  {
    if layers != [] {
      var init := layers[..|layers| - 1];
      FlattenKeys(init);
      forall k | k in Flatten(layers)
        ensures exists i :: 0 <= i < |layers| && k in layers[i]
      {
        if k !in layers[|layers| - 1] {
          assert k in Flatten(init);
          var i :| 0 <= i < |init| && k in init[i];
          assert layers[i] == init[i];
        }
      }
      forall k | exists i :: 0 <= i < |layers| && k in layers[i]
        ensures k in Flatten(layers)
      {
        var i :| 0 <= i < |layers| && k in layers[i];
        if i < |init| {
          assert init[i] == layers[i];
        }
      }
    }
  }

  /** A key takes the value of the last layer that sets it. */
  lemma {:induction false} FlattenLastWins(layers: seq<Layer>, i: int, k: string)
    requires 0 <= i < |layers| && k in layers[i]
    requires forall j :: i < j < |layers| ==> k !in layers[j]
    ensures k in Flatten(layers) && Flatten(layers)[k] == layers[i][k]
    decreases |layers|
  {
    if i < |layers| - 1 {
      var init := layers[..|layers| - 1];
      assert init[i] == layers[i];
      forall j | i < j < |init|
        ensures k !in init[j]
      {
        assert init[j] == layers[j];
      }
      FlattenLastWins(init, i, k);
    }
  }

  /** Reading a permission: the value of the last layer that sets it when that value has the
      permission's type, a type mismatch when it does not, and the type's default when no
      layer sets it. */
  lemma GetPermissionValueResolves(layers: seq<Layer>, d: PermissionDescriptor)
    ensures (forall i :: 0 <= i < |layers| ==> d.key !in layers[i])
            ==> GetPermissionValue(layers, d) == Ok(DefaultValue(d.valueType))
    ensures forall i ::
              (0 <= i < |layers| && d.key in layers[i] && (forall j :: i < j < |layers| ==> d.key !in layers[j]))
              ==> (GetPermissionValue(layers, d)
                   == if ValidateValue(d, layers[i][d.key]) then Ok(layers[i][d.key]) else Err(ValueTypeMismatch(d.key)))
  {
    FlattenKeys(layers);
    forall i | 0 <= i < |layers| && d.key in layers[i] && (forall j :: i < j < |layers| ==> d.key !in layers[j])
      ensures GetPermissionValue(layers, d)
              == (if ValidateValue(d, layers[i][d.key]) then Ok(layers[i][d.key]) else Err(ValueTypeMismatch(d.key)))
    {
      FlattenLastWins(layers, i, d.key);
    }
  }

  /** Adding a layer on top decides every key it sets and leaves the other keys as below. */
  lemma FlattenPush(layers: seq<Layer>, top: Layer)
    ensures forall k :: k in top ==> k in Flatten(layers + [top]) && Flatten(layers + [top])[k] == top[k]
    ensures forall k :: k !in top ==> Get(Flatten(layers + [top]), k) == Get(Flatten(layers), k)
  {
    assert (layers + [top])[..|layers + [top]| - 1] == layers;
  }

  /** Two layers setting the same key: the later one wins, and a permission set by neither
      reads as the default of its type (0 for an integer permission). */
  lemma LaterLayerWinsExample()
    ensures var boolPermission, intPermission := PermissionDescriptor("test", BoolType), PermissionDescriptor("test2", IntType);
      && GetPermissionValue([map["test" := BoolValue(true)], map["test" := BoolValue(false)]], boolPermission)
         == Ok(BoolValue(false))
      && GetPermissionValue([map["test" := BoolValue(true)]], intPermission) == Ok(IntValue(0))
  {
    var layers := [map["test" := BoolValue(true)], map["test" := BoolValue(false)]];
    FlattenLastWins(layers, 1, "test");
    var single := [map["test" := BoolValue(true)]];
    FlattenKeys(single);
  }

  /** Flattening two layers that overlap on one key: two keys, the overlapping one with the
      later value and the other one with the value of the only layer that sets it. */
  lemma FlattenExample()
    ensures var flat := Flatten([map["test" := BoolValue(true), "test2" := IntValue(45)], map["test" := BoolValue(false)]]);
      && flat.Keys == {"test", "test2"}
      && flat["test"] == BoolValue(false)
      && flat["test2"] == IntValue(45)
  {
    var layers := [map["test" := BoolValue(true), "test2" := IntValue(45)], map["test" := BoolValue(false)]];
    FlattenLastWins(layers, 1, "test");
    FlattenLastWins(layers, 0, "test2");
    FlattenKeys(layers);
    var flat := Flatten(layers);
    forall k | k in flat
      ensures k in {"test", "test2"}
    {
      var i :| 0 <= i < |layers| && k in layers[i];
    }
  }
}
