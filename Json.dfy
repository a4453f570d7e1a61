/** The parsed request body: JSON values as Python's `json` module delivers them, with the
    few Python operations the handler applies to them (truthiness, `dict.get`, `str`). */
module Json {
  import opened Wrappers

  /** A JSON value. An object keeps its members in body order; Python builds a `dict`
      from them in which a repeated key keeps its last value. */
  datatype Json =
    | JNull
    | JBool(b: bool)
    | JNumber(n: int)
    | JString(s: string)
    | JArray(items: seq<Json>)
    | JObject(members: seq<(string, Json)>)

  /** Python truthiness: `None`, `False`, `0`, `""`, `[]` and `{}` are false. */
  predicate Truthy(v: Json) {
    match v
    case JNull => false
    case JBool(b) => b
    case JNumber(n) => n != 0
    case JString(s) => s != []
    case JArray(items) => items != []
    case JObject(members) => members != []
  }

  /** `d.get(key)` on the dict built from an object's members: the value of the last
      member with that key, or None. */
  function Get(members: seq<(string, Json)>, key: string): (r: Option<Json>)
    ensures r.None? <==> forall i :: 0 <= i < |members| ==> members[i].0 != key
    ensures r.Some? ==> exists i :: 0 <= i < |members| && members[i] == (key, r.value)
                          && forall j :: i < j < |members| ==> members[j].0 != key
  {
    if |members| == 0 then None
    else if members[|members| - 1].0 == key then Some(members[|members| - 1].1)
    else Get(members[..|members| - 1], key)
  }

  /** `x or {}` followed by `.get` on the result: a false value stands for the empty dict,
      an object is used as it is, and any other true value raises (it has no `get`). */
  function AsMembers(v: Option<Json>): (r: Py<seq<(string, Json)>>)
    ensures r.Raises? <==> v.Some? && Truthy(v.value) && !v.value.JObject?
    ensures r.Returns? && r.value != [] ==> v == Some(JObject(r.value))
    ensures v.Some? && v.value.JObject? ==> r == Returns(v.value.members)
    ensures v.None? || !Truthy(v.value) ==> r == Returns([])
  {
    match v
    case None => Returns([])
    case Some(JObject(members)) => Returns(members)
    case Some(x) => if Truthy(x) then Raises else Returns([])
  }

  /** The decimal digits of a natural number, most significant first. */
  function Digits(n: nat): (r: string)
    ensures |r| > 0 && forall i :: 0 <= i < |r| ==> '0' <= r[i] <= '9'
    ensures n > 0 ==> r[0] != '0'
  {
    if n < 10 then [('0' as int + n) as char] else Digits(n / 10) + [('0' as int + n % 10) as char]
  }

  /** The value a digit string stands for. */
  function DigitsValue(s: string): int
  {
    if s == [] then 0 else DigitsValue(s[..|s| - 1]) * 10 + (s[|s| - 1] as int - '0' as int)
  }

  lemma {:induction false} DigitsValueOfDigits(n: nat)
    ensures DigitsValue(Digits(n)) == n
  {
    if n >= 10 {
      DigitsValueOfDigits(n / 10);
      var d := Digits(n);
      assert d[..|d| - 1] == Digits(n / 10);
    }
  }

  /** Python's `str(n)` for an integer: a minus sign for negatives, then the digits. */
  function IntText(n: int): (r: string)
    ensures |r| > 0
  {
    if n < 0 then "-" + Digits(-n) else Digits(n)
  }

  /** Python's `repr` of a value inside a list or dict. Strings are quoted with single
      quotes and not escaped. */
  function Repr(v: Json): (r: string)
    ensures |r| > 0
    decreases v, 1
  {
    match v
    case JNull => "None"
    case JBool(b) => if b then "True" else "False"
    case JNumber(n) => IntText(n)
    case JString(s) => "'" + s + "'"
    case JArray(items) => "[" + ReprItems(v, items) + "]"
    case JObject(members) => "{" + ReprMembers(v, members) + "}"
  }

  function ReprItems(ghost parent: Json, items: seq<Json>): string
    requires forall x :: x in items ==> x < parent
    decreases parent, 0, |items|
  {
    if items == [] then ""
    else
      assert items[0] in items;
      assert forall x :: x in items[1..] ==> x in items;
      Repr(items[0]) + (if |items| == 1 then "" else ", " + ReprItems(parent, items[1..]))
  }

  function ReprMembers(ghost parent: Json, members: seq<(string, Json)>): string
    requires forall m :: m in members ==> m.1 < parent
    decreases parent, 0, |members|
  {
    if members == [] then ""
    else
      assert members[0] in members;
      assert forall m :: m in members[1..] ==> m in members;
      "'" + members[0].0 + "': " + Repr(members[0].1)
         + (if |members| == 1 then "" else ", " + ReprMembers(parent, members[1..]))
  }

  /** Python's `str(x)` for the values the handler turns into text. */
  function Str(v: Json): (r: string)
    ensures v.JString? ==> r == v.s
    ensures v.JNumber? ==> r == IntText(v.n)
    ensures !v.JString? ==> |r| > 0
  {
    if v.JString? then v.s else Repr(v)
  }
}
