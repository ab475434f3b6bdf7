/** The two genre tables of lib/constants.ts: filter codes to database
    labels and back. */
module GenreTables {
  import opened Common

  /** The keys of `GENRE_VALUE_TO_DB`, in declaration order. */
  const UiCodes: seq<string> := ["free", "fantasy", "sf", "romance", "horror"]
  /** The keys of `GENRE_DB_TO_VALUE`, in declaration order. */
  const DbLabels: seq<string> := ["자유", "판타지", "SF", "로맨스", "공포"]

  /** The properties every object literal inherits from `Object.prototype`.
      Indexing either table with one of these names finds the inherited
      value instead of nothing. */
  const InheritedKeys: seq<string> := [
    "constructor", "__defineGetter__", "__defineSetter__", "hasOwnProperty", "__lookupGetter__",
    "__lookupSetter__", "isPrototypeOf", "propertyIsEnumerable", "toString", "valueOf", "__proto__",
    "toLocaleString"]

  /** The text of an inherited value once it is put into a filter: a
      built-in method prints as its native source, `Object` for
      "constructor", and `__proto__` is `Object.prototype` itself. */
  function InheritedText(key: string): (r: string)
    ensures r !in DbLabels
  {
    if key == "__proto__" then "[object Object]"
    else "function " + (if key == "constructor" then "Object" else key) + "() { [native code] }"
  }

  /** `GENRE_VALUE_TO_DB[code]` as text, `None` when it is `undefined`: the
      label of one of the five codes, the text of an inherited value for
      an inherited name, nothing otherwise. */
  function LookupAsText(code: string): (r: Option<string>)
    ensures r.Some? <==> code in UiCodes || code in InheritedKeys
    ensures code in UiCodes ==> r == ValueToDb(code)
    ensures code in InheritedKeys ==> r.Some? && r.value !in DbLabels
  {
    if code in UiCodes then ValueToDb(code)
    else if code in InheritedKeys then Some(InheritedText(code))
    else None
  }

  /** `GENRE_VALUE_TO_DB[code]`, `None` for a code the table lacks. */
  function ValueToDb(code: string): (r: Option<string>)
    ensures r.Some? <==> code in UiCodes
    ensures r.Some? ==> r.value in DbLabels
  {
    if code == "free" then Some("자유")
    else if code == "fantasy" then Some("판타지")
    else if code == "sf" then Some("SF")
    else if code == "romance" then Some("로맨스")
    else if code == "horror" then Some("공포")
    else None
  }

  /** `GENRE_DB_TO_VALUE[dbLabel]`, `None` for a label the table lacks. */
  function DbToValue(dbLabel: string): (r: Option<string>)
    ensures r.Some? <==> dbLabel in DbLabels
    ensures r.Some? ==> r.value in UiCodes
  {
    if dbLabel == "자유" then Some("free")
    else if dbLabel == "판타지" then Some("fantasy")
    else if dbLabel == "SF" then Some("sf")
    else if dbLabel == "로맨스" then Some("romance")
    else if dbLabel == "공포" then Some("horror")
    else None
  }

  /** Each table has five distinct keys. */
  lemma {:induction false} TablesHaveFiveKeys()
    ensures |UiCodes| == 5 && |DbLabels| == 5
    ensures forall i, j :: 0 <= i < j < 5 ==> UiCodes[i] != UiCodes[j] && DbLabels[i] != DbLabels[j]
  {
  }

  /** Code to label to code is the identity on the five codes. */
  lemma {:induction false} CodeRoundTrip(code: string)
    requires code in UiCodes
    ensures ValueToDb(code).Some? && DbToValue(ValueToDb(code).value) == Some(code)
  {
  }

  /** Label to code to label is the identity on the five labels. */
  lemma {:induction false} LabelRoundTrip(dbLabel: string)
    requires dbLabel in DbLabels
    ensures DbToValue(dbLabel).Some? && ValueToDb(DbToValue(dbLabel).value) == Some(dbLabel)
  {
  }

  /** Distinct codes map to distinct labels. */
  lemma {:induction false} ValueToDbInjective(a: string, b: string)
    requires ValueToDb(a).Some? && ValueToDb(a) == ValueToDb(b)
    ensures a == b
  {
  }
}
