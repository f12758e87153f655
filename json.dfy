/**
 * The JSON-like values the SDK passes around as plain Python data
 * (`model_dump()` output, assertion records, extension option dicts).
 * Objects keep Python's dict insertion order: a sequence of fields whose
 * keys are distinct. Floating-point numbers are not part of the model.
 */
module Json {
  import opened Text
  import opened Wrappers

  datatype Json =
    | JNull
    | JBool(b: bool)
    | JInt(i: int)
    | JStr(s: string)
    | JList(items: seq<Json>)
    | JObj(fields: seq<Field>)

  datatype Field = Field(key: string, value: Json)

  /** Python truthiness (`bool(x)`). */
  predicate Truthy(j: Json) {
    match j
    case JNull => false
    case JBool(b) => b
    case JInt(i) => i != 0
    case JStr(s) => s != ""
    case JList(items) => items != []
    case JObj(fields) => fields != []
  }

  // ---------------------------------------------------------------------------
  // dict operations over insertion-ordered fields

  predicate DistinctKeys(fields: seq<Field>) {
    forall i, j :: 0 <= i < j < |fields| ==> fields[i].key != fields[j].key
  }

  /** Position of key `k`, or `|fields|` when it is absent. */
  function FindKey(fields: seq<Field>, k: string): (i: nat)
    ensures i <= |fields|
    ensures i < |fields| ==> fields[i].key == k
    ensures forall j :: 0 <= j < i ==> fields[j].key != k
  {
    if fields == [] then 0
    else if fields[0].key == k then 0
    else 1 + FindKey(fields[1..], k)
  }

  /** `k in d` */
  predicate HasKey(fields: seq<Field>, k: string) {
    FindKey(fields, k) < |fields|
  }

  /** `d.get(k)` */
  function Get(fields: seq<Field>, k: string): Option<Json> {
    var i := FindKey(fields, k);
    if i < |fields| then Some(fields[i].value) else None
  }

  /** `d[k] = v`: an existing key keeps its position, a new key goes last. */
  function Set(fields: seq<Field>, k: string, v: Json): seq<Field> {
    var i := FindKey(fields, k);
    if i < |fields| then fields[i := Field(k, v)] else fields + [Field(k, v)]
  }

  /**
   * After `d[k] = v` the keys stay distinct, reading `k` gives `v`, every
   * other key reads as before, and no other key is added or moved.
   */
  lemma GetSet(fields: seq<Field>, k: string, v: Json, k2: string)
    requires DistinctKeys(fields)
    ensures DistinctKeys(Set(fields, k, v))
    ensures Get(Set(fields, k, v), k2) == if k2 == k then Some(v) else Get(fields, k2)
    ensures HasKey(Set(fields, k, v), k2) <==> k2 == k || HasKey(fields, k2)
  {
    var r := Set(fields, k, v);
    var i := FindKey(fields, k);
    assert forall j :: 0 <= j < |fields| ==> r[j].key == fields[j].key;
    var i2 := FindKey(fields, k2);
    var r2 := FindKey(r, k2);
    if k2 == k {
      assert r[i] == Field(k, v);
      assert r2 == i;
    } else {
      if i2 < |fields| {
        assert r[i2].key == k2;
        assert r2 == i2;
      } else {
        assert r2 == |r|;
      }
    }
  }

  /**
   * The same facts for any field list, duplicates included: `d[k] = v`
   * shadows nothing but `k`, and repeating it changes nothing.
   */
  lemma SetFacts(fields: seq<Field>, k: string, v: Json, k2: string)
    ensures Get(Set(fields, k, v), k2) == if k2 == k then Some(v) else Get(fields, k2)
    ensures HasKey(Set(fields, k, v), k)
    ensures Set(Set(fields, k, v), k, v) == Set(fields, k, v)
  {
    if FindKey(fields, k) < |fields| {
      SetExistingFacts(fields, k, v, k2);
    } else {
      SetNewFacts(fields, k, v, k2);
    }
  }

  lemma SetExistingFacts(fields: seq<Field>, k: string, v: Json, k2: string)
    requires FindKey(fields, k) < |fields|
    ensures Get(Set(fields, k, v), k2) == if k2 == k then Some(v) else Get(fields, k2)
    ensures HasKey(Set(fields, k, v), k)
    ensures Set(Set(fields, k, v), k, v) == Set(fields, k, v)
  {
    var i := FindKey(fields, k);
    var r := fields[i := Field(k, v)];
    assert Set(fields, k, v) == r;
    FindKeyByKeys(fields, r, k);
    FindKeyByKeys(fields, r, k2);
    assert r[i := Field(k, v)] == r;
  }

  lemma SetNewFacts(fields: seq<Field>, k: string, v: Json, k2: string)
    requires FindKey(fields, k) == |fields|
    ensures Get(Set(fields, k, v), k2) == if k2 == k then Some(v) else Get(fields, k2)
    ensures HasKey(Set(fields, k, v), k)
    ensures Set(Set(fields, k, v), k, v) == Set(fields, k, v)
  {
    var r := fields + [Field(k, v)];
    assert Set(fields, k, v) == r;
    FindKeyAppended(fields, Field(k, v), k);
    assert r[|fields| := Field(k, v)] == r;
    if k2 != k {
      var i2 := FindKey(fields, k2);
      if i2 < |fields| {
        assert r[i2] == fields[i2];
      } else {
        FindKeyAppended(fields, Field(k, v), k2);
      }
    }
  }

  /** Appending a field to a list without key `k` finds `k` in the new field or nowhere. */
  lemma {:induction false} FindKeyAppended(fields: seq<Field>, f: Field, k: string)
    requires FindKey(fields, k) == |fields|
    ensures FindKey(fields + [f], k) == if f.key == k then |fields| else |fields| + 1
  {
    if fields != [] {
      assert (fields + [f])[1..] == fields[1..] + [f];
      FindKeyAppended(fields[1..], f, k);
    }
  }

  /** Looking a key up depends only on the keys. */
  lemma {:induction false} FindKeyByKeys(a: seq<Field>, b: seq<Field>, k: string)
    requires |a| == |b| && forall j :: 0 <= j < |a| ==> a[j].key == b[j].key
    ensures FindKey(a, k) == FindKey(b, k)
  {
    if a != [] {
      FindKeyByKeys(a[1..], b[1..], k);
    }
  }

  // ---------------------------------------------------------------------------
  // str() and repr()

  /** The quote `repr` puts around a string. */
  function QuoteFor(s: string): char {
    if '\'' in s && '"' !in s then '"' else '\''
  }

  /** `repr(x)` without the backslash escapes of special characters. */
  function Repr(j: Json): string
    decreases j
  {
    match j
    case JNull => "None"
    case JBool(b) => if b then "True" else "False"
    case JInt(i) => IntToString(i)
    case JStr(s) => ReprStr(s)
    case JList(items) => "[" + ReprItems(items) + "]"
    case JObj(fields) => "{" + ReprFields(fields) + "}"
  }

  /** `repr(s)` for a string. */
  function ReprStr(s: string): string {
    [QuoteFor(s)] + s + [QuoteFor(s)]
  }

  function ReprItems(items: seq<Json>): string
    decreases items
  {
    if items == [] then ""
    else if |items| == 1 then Repr(items[0])
    else Repr(items[0]) + ", " + ReprItems(items[1..])
  }

  function ReprFields(fields: seq<Field>): string
    decreases fields
  {
    if fields == [] then ""
    else
      var head := ReprStr(fields[0].key) + ": " + Repr(fields[0].value);
      if |fields| == 1 then head else head + ", " + ReprFields(fields[1..])
  }

  /** `str(x)`: a string is itself, everything else is its `repr`. */
  function PyStr(j: Json): string {
    if j.JStr? then j.s else Repr(j)
  }

  /** Only the empty string, and nothing that is not a string, prints as "". */
  lemma PyStrEmpty(j: Json)
    ensures PyStr(j) == "" <==> j == JStr("")
  {
    match j
    case JInt(i) =>
      assert IntToString(i) != "";
    case _ =>
  }
}
