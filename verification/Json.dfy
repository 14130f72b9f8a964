/** JSON values and the lookups the program performs on them. */
module Json {
  import opened Options

  datatype Json =
    | Null
    | Bool(b: bool)
    | Num(n: int)
    | Str(s: string)
    | Arr(items: seq<Json>)
    | Obj(fields: Object)

  type Object = map<string, Json>

  function OrElse<T>(first: Option<T>, second: Option<T>): Option<T> {
    if first.Some? then first else second
  }

  function Field(o: Object, key: string): Option<Json> {
    if key in o then Some(o[key]) else None
  }

  function Get(v: Json, key: string): Option<Json> {
    if v.Obj? then Field(v.fields, key) else None
  }

  function GetOpt(v: Option<Json>, key: string): Option<Json> {
    if v.Some? then Get(v.value, key) else None
  }

  function AsStr(v: Option<Json>): Option<string> {
    if v.Some? && v.value.Str? then Some(v.value.s) else None
  }

  function NonEmpty(s: Option<string>): Option<string> {
    if s == Some("") then None else s
  }

  /** The characters `str::trim` removes: Unicode White_Space. */
  predicate IsWhite(c: char) {
    || '\t' <= c <= '\r'
    || c == ' '
    || c == '\U{85}'
    || c == '\U{A0}'
    || c == '\U{1680}'
    || '\U{2000}' <= c <= '\U{200A}'
    || c == '\U{2028}'
    || c == '\U{2029}'
    || c == '\U{202F}'
    || c == '\U{205F}'
    || c == '\U{3000}'
  }

  function Trim(s: string): (r: string)
    ensures r != [] ==> !IsWhite(r[0]) && !IsWhite(r[|r| - 1])
    decreases |s|
  {
    if s == [] then []
    else if IsWhite(s[0]) then Trim(s[1..])
    else if IsWhite(s[|s| - 1]) then Trim(s[..|s| - 1])
    else s
  }

  /** Trimming takes the white characters from both ends and nothing else. */
  lemma {:induction false} TrimTakesEnds(s: string) returns (front: nat, back: nat)
    ensures front <= back <= |s| && Trim(s) == s[front..back]
    ensures forall i :: 0 <= i < front || back <= i < |s| ==> IsWhite(s[i])
    decreases |s|
  {
    hide IsWhite;
    if s == [] {
      front, back := 0, 0;
    } else if IsWhite(s[0]) {
      front, back := TrimTakesEnds(s[1..]);
      front, back := front + 1, back + 1;
      assert forall i :: 0 < i < |s| ==> s[i] == s[1..][i - 1];
    } else if IsWhite(s[|s| - 1]) {
      front, back := TrimTakesEnds(s[..|s| - 1]);
    } else {
      front, back := 0, |s|;
    }
  }

  /** A trimmed string, and only if something is left of it. */
  function Trimmed(v: Option<Json>): (r: Option<string>)
    ensures r.Some? ==> r.value != "" && Trim(r.value) == r.value
  {
    if v.Some? && v.value.Str? then NonEmpty(Some(Trim(v.value.s))) else None
  }

  function At(v: Json, path: seq<string>): Option<Json>
    decreases path
  {
    if path == [] then Some(v)
    else
      var next := Get(v, path[0]);
      if next.None? then None else At(next.value, path[1..])
  }

  function StringAt(v: Json, path: seq<string>): (r: Option<string>)
    ensures r.Some? ==> r.value != "" && Trim(r.value) == r.value
  {
    Trimmed(At(v, path))
  }

  function FirstString(v: Json, paths: seq<seq<string>>): (r: Option<string>)
    ensures r.Some? ==> r.value != "" && Trim(r.value) == r.value
    decreases paths
  {
    if paths == [] then None
    else OrElse(StringAt(v, paths[0]), FirstString(v, paths[1..]))
  }

  function ObjectAt(v: Json, path: seq<string>): Option<Object> {
    var found := At(v, path);
    if found.Some? && found.value.Obj? then Some(found.value.fields) else None
  }

  function FirstStringIn(o: Option<Object>, keys: seq<string>): (r: Option<string>)
    ensures r.Some? ==> r.value != "" && Trim(r.value) == r.value
    decreases keys
  {
    if o.None? || keys == [] then None
    else OrElse(Trimmed(Field(o.value, keys[0])), FirstStringIn(o, keys[1..]))
  }
}
