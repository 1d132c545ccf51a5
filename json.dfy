/**
 * The part of a parsed JSON document (as the jsoncpp reader delivers it) that
 * the discovery code inspects: member lookup, the null and array tests, the
 * size of an array and the conversion of a scalar to text.
 */
module Json {
  import opened Wrappers

  datatype Value =
    | Null
    | Bool(b: bool)
    | Int(i: int)
    | Str(s: string)
    | Arr(items: seq<Value>)
      /**
       * Members in the order the parser iterates them. jsoncpp keeps one member
       * per name and iterates them sorted by name; this list is taken as given
       * and is not required to be sorted or free of repeated names.
       */
    | Obj(members: seq<(string, Value)>)

  /** `v[key]`: the member's value, or null when `v` is not an object or has no such member. */
  function Get(v: Value, key: string): Value {
    if v.Obj? then Lookup(v.members, key) else Null
  }

  function Lookup(ms: seq<(string, Value)>, key: string): Value {
    if ms == [] then Null
    else if ms[0].0 == key then ms[0].1
    else Lookup(ms[1..], key)
  }

  // Member names the discovery code looks up in driver and layer manifests.
  const IcdKey: string := "ICD"
  const LayerKey: string := "layer"
  const NameKey: string := "name"
  const DescriptionKey: string := "description"
  const ApiVersionKey: string := "api_version"
  const FileFormatVersionKey: string := "file_format_version"
  const ComponentLayersKey: string := "component_layers"
  const LibraryPathKey: string := "library_path"
  const DeviceExtensionsKey: string := "device_extensions"
  const InstanceExtensionsKey: string := "instance_extensions"
  const EnableEnvironmentKey: string := "enable_environment"
  const DisableEnvironmentKey: string := "disable_environment"
  const ExpirationKey: string := "expiration"
  const OverridePathsKey: string := "override_paths"

  predicate IsNull(v: Value) {
    v.Null?
  }

  predicate IsArray(v: Value) {
    v.Arr?
  }

  /** `Value::size()`: the number of elements of an array or members of an object, 0 otherwise. */
  function Size(v: Value): nat {
    match v
    case Arr(items) => |items|
    case Obj(members) => |members|
    case _ => 0
  }

  function NatToString(n: nat): string
    decreases n
  {
    var d := [('0' as int + n % 10) as char];
    if n < 10 then d else NatToString(n / 10) + d
  }

  /**
   * `Value::asString()` on a scalar. jsoncpp throws for arrays and objects;
   * the model gives the empty string there.
   */
  function AsString(v: Value): string {
    match v
    case Null => ""
    case Bool(b) => if b then "true" else "false"
    case Int(i) => if i < 0 then "-" + NatToString(-i) else NatToString(i)
    case Str(s) => s
    case Arr(_) => ""
    case Obj(_) => ""
  }

  /**
   * The key of the first entry an iterator over `v` visits: an object's first
   * member name, or, for an array, its index 0 rendered as text. Scalars have
   * no entries to iterate.
   */
  function FirstKey(v: Value): (r: Option<string>)
    ensures r.Some? <==> (v.Obj? && v.members != []) || (v.Arr? && v.items != [])
  {
    match v
    case Obj(ms) => if ms == [] then None else Some(ms[0].0)
    case Arr(items) => if items == [] then None else Some("0")
    case _ => None
  }
}
