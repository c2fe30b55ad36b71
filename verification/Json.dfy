/** Parsed JSON, with the accessors of `serde_json::Value` the services call on it. */
module Json {
  import opened Wrappers

  type I64 = n: int | -0x8000_0000_0000_0000 <= n < 0x8000_0000_0000_0000

  datatype Value =
    | Null
    | Bool(b: bool)
    | Int(n: int)
    | Float(x: real)
    | Str(s: string)
    | Arr(items: seq<Value>)
    | Obj(fields: map<string, Value>)
  {
    /** `get(name)`: nothing on a value that is not an object. */
    function Get(name: string): (r: Option<Value>)
      ensures r.Some? <==> Obj? && name in fields
      ensures r.Some? ==> r.value == fields[name]
    {
      if Obj? && name in fields then Some(fields[name]) else None
    }

    function GetStr(name: string): (r: Option<string>)
      ensures r.Some? <==> Obj? && name in fields && fields[name].Str?
      ensures r.Some? ==> fields[name] == Str(r.value)
    {
      match Get(name)
      case Some(Str(s)) => Some(s)
      case _ => None
    }

    function GetBool(name: string): (r: Option<bool>)
      ensures r.Some? <==> Obj? && name in fields && fields[name].Bool?
      ensures r.Some? ==> fields[name] == Bool(r.value)
    {
      match Get(name)
      case Some(Bool(b)) => Some(b)
      case _ => None
    }

    /** `as_i64`: an integer beyond 64 signed bits is not one. */
    function GetI64(name: string): (r: Option<I64>)
      ensures r.Some? <==> Obj? && name in fields && fields[name].Int? &&
                           -0x8000_0000_0000_0000 <= fields[name].n < 0x8000_0000_0000_0000
      ensures r.Some? ==> fields[name] == Int(r.value)
    {
      match Get(name)
      case Some(Int(n)) => if -0x8000_0000_0000_0000 <= n < 0x8000_0000_0000_0000 then Some(n) else None
      case _ => None
    }

    function GetArr(name: string): (r: Option<seq<Value>>)
      ensures r.Some? <==> Obj? && name in fields && fields[name].Arr?
      ensures r.Some? ==> fields[name] == Arr(r.value)
    {
      match Get(name)
      case Some(Arr(items)) => Some(items)
      case _ => None
    }
  }
}
