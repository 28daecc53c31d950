/**
 * The part of `serde_json::Value` the service relies on: indexing an
 * object by key (`value["ok"]`), `as_bool`, `as_str`, and the compact
 * serialisation `to_string`. Parsing text into a value is an oracle the
 * callers supply; numbers are integers only.
 */
module Json {
  import opened Common

  datatype JsonValue =
    | Null
    | Bool(b: bool)
    | Number(n: int)
    | Str(s: string)
    | Array(items: seq<JsonValue>)
    | Object(members: seq<Member>)

  /** One key/value pair of an object, in the object's iteration order. */
  datatype Member = Member(key: string, value: JsonValue)

  /** The value stored under `key` in `members`, if any. */
  function Lookup(members: seq<Member>, key: string): (r: Option<JsonValue>)
    ensures r.Some? <==> exists i :: 0 <= i < |members| && members[i].key == key
    ensures r.Some? ==> exists i :: 0 <= i < |members| && members[i] == Member(key, r.value)
  {
    if members == [] then None
    else if members[0].key == key then Some(members[0].value)
    else
      var r := Lookup(members[1..], key);
      assert forall i :: 1 <= i < |members| ==> members[i] == members[1..][i - 1];
      r
  }

  /**
   * `a` sorts strictly before `b`, character by character with a proper
   * prefix first: the order of `String` keys in `serde_json`'s default map
   * (byte order of UTF-8, which is code-point order).
   */
  predicate KeyLess(a: string, b: string) {
    if a == [] then b != []
    else if b == [] then false
    else a[0] < b[0] || (a[0] == b[0] && KeyLess(a[1..], b[1..]))
  }

  lemma {:induction false} KeyLessIrreflexive(a: string)
    ensures !KeyLess(a, a)
  {
    if a != [] {
      KeyLessIrreflexive(a[1..]);
    }
  }

  /**
   * A value as `serde_json` holds it: every object, at any depth, has its
   * members in strictly increasing key order, hence one member per key.
   */
  predicate WellFormed(v: JsonValue) {
    match v
    case Array(items) => forall i :: 0 <= i < |items| ==> WellFormed(items[i])
    case Object(members) =>
      && (forall i, j :: 0 <= i < j < |members| ==> KeyLess(members[i].key, members[j].key))
      && (forall i :: 0 <= i < |members| ==> WellFormed(members[i].value))
    case _ => true
  }

  /** What `f` makes of `t`, if anything, is well formed. */
  predicate DecodesWellFormed(f: string -> Result<JsonValue, string>, t: string) {
    f(t).Ok? ==> WellFormed(f(t).value)
  }

  /**
   * A text-to-value decoder whose values are all well formed: parsing
   * builds a map, so a key repeated in the text leaves a single member.
   */
  type Decoder = f: string -> Result<JsonValue, string> | forall t :: DecodesWellFormed(f, t)
    witness (t: string) => Err("")

  /** The keys of a well-formed object are pairwise distinct. */
  lemma WellFormedKeysDistinct(v: JsonValue)
    requires v.Object? && WellFormed(v)
    ensures forall i, j :: 0 <= i < |v.members| && 0 <= j < |v.members| && i != j ==>
      v.members[i].key != v.members[j].key
  {
    forall i, j | 0 <= i < |v.members| && 0 <= j < |v.members| && i != j
      ensures v.members[i].key != v.members[j].key
    {
      if i < j {
        KeyLessIrreflexive(v.members[i].key);
      } else {
        KeyLessIrreflexive(v.members[j].key);
      }
    }
  }

  /**
   * On a well-formed object, indexing by a member's key yields that very
   * member: taking the first match, as `Lookup` does, loses nothing.
   */
  lemma GetWellFormedMember(v: JsonValue, i: nat)
    requires v.Object? && WellFormed(v) && i < |v.members|
    ensures Get(v, v.members[i].key) == v.members[i].value
  {
    WellFormedKeysDistinct(v);
    var r := Lookup(v.members, v.members[i].key);
    var j :| 0 <= j < |v.members| && v.members[j] == Member(v.members[i].key, r.value);
    assert j == i;
  }

  /**
   * `value[key]` on a `serde_json::Value`: the member's value when `v` is an
   * object holding `key`, and `Null` in every other case.
   */
  function Get(v: JsonValue, key: string): (r: JsonValue)
    ensures !v.Object? ==> r == Null
    ensures v.Object? && Lookup(v.members, key).None? ==> r == Null
    ensures v.Object? && Lookup(v.members, key).Some? ==> r == Lookup(v.members, key).value
  {
    if v.Object? then Lookup(v.members, key).GetOr(Null) else Null
  }

  /** `Value::as_bool` */
  function AsBool(v: JsonValue): Option<bool> {
    if v.Bool? then Some(v.b) else None
  }

  /** `Value::as_str` */
  function AsStr(v: JsonValue): Option<string> {
    if v.Str? then Some(v.s) else None
  }

  /**
   * `v[key].as_bool().unwrap_or(false)`: holds exactly when the member is
   * the JSON boolean `true`; a missing member, `null`, a string "true" or a
   * number all count as false.
   */
  predicate FlagSet(v: JsonValue, key: string) {
    AsBool(Get(v, key)).GetOr(false)
  }

  lemma FlagSetIffTrue(v: JsonValue, key: string)
    ensures FlagSet(v, key) <==> Get(v, key) == Bool(true)
  {
  }

  /**
   * How `serde_json` writes one character inside a string literal: the
   * quote and the backslash are escaped, five control characters get their
   * short escapes, the remaining control characters a `\u00XX` escape with
   * lower-case hex digits, and every other character stands for itself.
   */
  function EscapeChar(c: char): (r: string)
    ensures c >= ' ' && c != '"' && c != '\\' ==> r == [c]
    ensures c < ' ' || c == '"' || c == '\\' ==> |r| >= 2 && r[0] == '\\'
  {
    if c == '"' then "\\\""
    else if c == '\\' then "\\\\"
    else if c == 8 as char then "\\b"
    else if c == 12 as char then "\\f"
    else if c == '\n' then "\\n"
    else if c == '\r' then "\\r"
    else if c == '\t' then "\\t"
    else if c < ' ' then "\\u00" + [HexDigit(c as int / 16), HexDigit(c as int % 16)]
    else [c]
  }

  function EscapeString(s: string): string {
    if s == [] then "" else EscapeChar(s[0]) + EscapeString(s[1..])
  }

  /** A string that `serde_json` writes without any escape. */
  predicate IsPlain(s: string) {
    forall i :: 0 <= i < |s| ==> s[i] >= ' ' && s[i] != '"' && s[i] != '\\'
  }

  lemma {:induction false} EscapePlain(s: string)
    requires IsPlain(s)
    ensures EscapeString(s) == s
  {
    if s != [] {
      EscapePlain(s[1..]);
    }
  }

  /** The compact serialisation, `Value::to_string`. */
  function Serialize(v: JsonValue): (r: string)
    ensures r != []
    decreases v, 2
  {
    match v
    case Null => "null"
    case Bool(b) => if b then "true" else "false"
    case Number(n) => if n < 0 then "-" + DecimalString(-n) else DecimalString(n)
    case Str(s) => "\"" + EscapeString(s) + "\""
    case Array(items) => "[" + SerializeItems(v, items) + "]"
    case Object(members) => "{" + SerializeMembers(v, members) + "}"
  }

  /** The items of an array, comma separated; `parent` only bounds the recursion. */
  function SerializeItems(ghost parent: JsonValue, items: seq<JsonValue>): string
    requires forall i :: 0 <= i < |items| ==> items[i] < parent
    decreases parent, 1, |items|
  {
    if items == [] then ""
    else if |items| == 1 then Serialize(items[0])
    else Serialize(items[0]) + "," + SerializeItems(parent, items[1..])
  }

  /** The members of an object as `"key":value`, comma separated. */
  function SerializeMembers(ghost parent: JsonValue, members: seq<Member>): string
    requires forall i :: 0 <= i < |members| ==> members[i].value < parent
    decreases parent, 1, |members|
  {
    if members == [] then ""
    else
      var first := "\"" + EscapeString(members[0].key) + "\":" + Serialize(members[0].value);
      if |members| == 1 then first else first + "," + SerializeMembers(parent, members[1..])
  }

  /** A string with nothing to escape is written verbatim between quotes. */
  lemma SerializePlainStr(s: string)
    requires IsPlain(s)
    ensures Serialize(Str(s)) == "\"" + s + "\""
  {
    EscapePlain(s);
  }
}
