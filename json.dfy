/**
 * The already-parsed JSON value that `JSONSerialization.jsonObject` hands to
 * the completion handler, and the two casts on it that the handler performs:
 * `as? [String: Any]` and `as? [[String: Any]]`.
 */
module JsonValues {
  import opened Wrappers

  /** A JSON value. Booleans are kept apart from numbers. */
  datatype Json =
    | JNull
    | JBool(b: bool)
    | JNum(n: real)
    | JStr(str: string)
    | JArr(elems: seq<Json>)
    | JObj(obj: map<string, Json>)

  /** A JSON object, `[String: Any]`. */
  type Dict = map<string, Json>

  /** `elements as? [[String: Any]]`: succeeds only when every element is an object. */
  function AllDicts(elements: seq<Json>): (r: Option<seq<Dict>>)
    ensures r.Some? <==> forall i :: 0 <= i < |elements| ==> elements[i].JObj?
    ensures r.Some? ==> |r.value| == |elements|
    ensures r.Some? ==> forall i :: 0 <= i < |elements| ==> elements[i] == JObj(r.value[i])
  {
    if elements == [] then Some([])
    else if !elements[0].JObj? then None
    else
      match AllDicts(elements[1..])
      case None => None
      case Some(rest) => Some([elements[0].obj] + rest)
  }

  /** `value as? [[String: Any]]` for any JSON value. */
  function ArrayOfDicts(value: Json): (r: Option<seq<Dict>>)
    ensures r.Some? ==> value.JArr? && |r.value| == |value.elems|
    ensures r.Some? ==> forall i :: 0 <= i < |value.elems| ==> value.elems[i] == JObj(r.value[i])
    ensures value.JArr? && (forall i :: 0 <= i < |value.elems| ==> value.elems[i].JObj?) ==> r.Some?
  {
    match value
    case JArr(elements) => AllDicts(elements)
    case _ => None
  }
}
