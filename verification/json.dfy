/** Decoded JSON values, and the few Python operations the components apply
    to them: `key in value`, `value[key]` and ordering against a number. */
module Json {
  import opened Wrappers
  import opened Errors

  datatype JsonValue =
    | JNull
    | JBool(b: bool)
    | JNum(n: real)
    | JString(str: string)
    | JArray(items: seq<JsonValue>)
    | JObject(fields: map<string, JsonValue>)

  /** `isinstance(v, dict) and key in v`: the shape every validation in the
      components checks for. */
  predicate HasKey(v: JsonValue, key: string) {
    v.JObject? && key in v.fields
  }

  /** `key` occurs in `s` starting at position `i`. */
  predicate OccursAt(key: string, s: string, i: int) {
    0 <= i && i + |key| <= |s| && s[i..i + |key|] == key
  }

  /** Python's substring test `key in s`. */
  function IsSubstring(key: string, s: string): bool {
    key <= s || (|s| > 0 && IsSubstring(key, s[1..]))
  }

  lemma {:induction false} IsSubstringMeansOccurrence(key: string, s: string)
    ensures IsSubstring(key, s) <==> exists i :: OccursAt(key, s, i)
    decreases |s|
  {
    if key <= s {
      assert s[0..|key|] == key;
      assert OccursAt(key, s, 0);
    } else if |s| > 0 {
      IsSubstringMeansOccurrence(key, s[1..]);
      forall i ensures OccursAt(key, s[1..], i) <==> 0 <= i && OccursAt(key, s, i + 1) {
        OccursAtTail(key, s, i);
      }
      assert !OccursAt(key, s, 0);
      if exists i :: OccursAt(key, s, i) {
        var i :| OccursAt(key, s, i);
        assert OccursAt(key, s[1..], i - 1);
      }
    }
  }

  /** An occurrence in the tail of `s` is an occurrence in `s` one place on. */
  lemma OccursAtTail(key: string, s: string, i: int)
    requires |s| > 0
    ensures OccursAt(key, s[1..], i) <==> 0 <= i && OccursAt(key, s, i + 1)
  {
    if 0 <= i && i + 1 + |key| <= |s| {
      assert s[1..][i..i + |key|] == s[i + 1..i + 1 + |key|];
    }
  }

  /** Python's `key in container` for a string `key`: dictionary membership,
      list membership (by equality), substring search, and a `TypeError` for
      `None`, booleans and numbers. */
  function Contains(container: JsonValue, key: string): (r: Result<bool, Error>)
    ensures r == Success(true) && container.JObject? <==> HasKey(container, key)
    ensures container.JArray? ==> (r == Success(true) <==> exists i :: 0 <= i < |container.items| && container.items[i] == JString(key))
    ensures container.JString? ==> (r == Success(true) <==> exists i :: OccursAt(key, container.str, i))
    ensures r.Failure? <==> container.JNull? || container.JBool? || container.JNum?
    ensures r.Failure? ==> r.error == TypeError
  {
    match container
    case JObject(fields) => Success(key in fields)
    case JArray(items) => Success(JString(key) in items)
    case JString(s) =>
      IsSubstringMeansOccurrence(key, s);
      Success(IsSubstring(key, s))
    case _ => Failure(TypeError)
  }

  /** Python's `container[key]` for a string `key`: only a dictionary can be
      indexed by a string; a missing key raises `KeyError`. */
  function Subscript(container: JsonValue, key: string): (r: Result<JsonValue, Error>)
    ensures r.Success? <==> HasKey(container, key)
    ensures r.Success? ==> r.value == container.fields[key]
    ensures container.JObject? && key !in container.fields ==> r == Failure(KeyError(key))
    ensures !container.JObject? ==> r == Failure(TypeError)
  {
    match container
    case JObject(fields) => if key in fields then Success(fields[key]) else Failure(KeyError(key))
    case _ => Failure(TypeError)
  }

  /** The number Python compares when `v` stands on one side of `<` or `>`
      against a float: a number, or a boolean as 0 or 1 (`bool` is a subclass
      of `int`); every other value makes the comparison raise `TypeError`. */
  function AsNumber(v: JsonValue): (r: Option<real>)
    ensures r.Some? <==> v.JNum? || v.JBool?
    ensures v.JNum? ==> r == Some(v.n)
    ensures v.JBool? ==> r.value == (if v.b then 1.0 else 0.0)
  {
    match v
    case JNum(n) => Some(n)
    case JBool(b) => Some(if b then 1.0 else 0.0)
    case _ => None
  }
}
