/**
 * Decoded JSON values as the Vavato scraper sees them after `json.loads`,
 * with Python's truthiness and `dict.get`. Object entries keep their order,
 * as a Python dict does.
 */
module Json {
  import opened Wrappers
  import opened Text
  import opened Seqs

  datatype Json =
    | JNull
    | JBool(b: bool)
    | JInt(i: int)
    | JFloat(r: real)
    | JStr(s: string)
    | JArr(items: seq<Json>)
    | JObj(entries: seq<Entry>)

  /** One key of an object and its value. */
  datatype Entry = Entry(key: string, value: Json)

  /** Python's `bool(v)`. */
  predicate Truthy(j: Json) {
    match j
    case JNull => false
    case JBool(b) => b
    case JInt(i) => i != 0
    case JFloat(r) => r != 0.0
    case JStr(s) => s != ""
    case JArr(xs) => xs != []
    case JObj(es) => es != []
  }

  /** `bool(d.get(k))`: a missing key is `None`, which is false. */
  predicate TruthyOpt(o: Option<Json>) {
    o.Some? && Truthy(o.value)
  }

  /** The position of the first entry with `key`. */
  function FindKey(es: seq<Entry>, key: string): (r: Option<nat>)
    ensures r.Some? ==> r.value < |es| && es[r.value].key == key
                        && forall i :: 0 <= i < r.value ==> es[i].key != key
    ensures r.None? <==> forall i :: 0 <= i < |es| ==> es[i].key != key
  {
    if |es| == 0 then None
    else if es[0].key == key then Some(0)
    else
      match FindKey(es[1..], key)
      case None => None
      case Some(k) => Some(k + 1)
  }

  /** `key in d` for an object. */
  predicate Has(j: Json, key: string) {
    j.JObj? && FindKey(j.entries, key).Some?
  }

  /** `d.get(key)` for an object. */
  function Get(j: Json, key: string): (r: Option<Json>)
    ensures r.Some? <==> Has(j, key)
  {
    if !j.JObj? then None
    else match FindKey(j.entries, key)
      case None => None
      case Some(k) => Some(j.entries[k].value)
  }

  /** `key in d` for some of the keys. */
  predicate HasAny(j: Json, keys: seq<string>) {
    exists k :: k in keys && Has(j, k)
  }

  /**
   * `d.get(k1) or d.get(k2) or …`: the first truthy value, or else the value
   * of the last key (`None` when it is missing).
   */
  function FirstTruthy(j: Json, keys: seq<string>): (r: Option<Json>)
    requires |keys| > 0
    ensures TruthyOpt(r) <==> exists k :: k in keys && TruthyOpt(Get(j, k))
    ensures TruthyOpt(r) ==> exists i :: 0 <= i < |keys| && r == Get(j, keys[i])
                                && forall h :: 0 <= h < i ==> !TruthyOpt(Get(j, keys[h]))
    ensures !TruthyOpt(r) ==> r == Get(j, keys[|keys| - 1])
  {
    if |keys| == 1 then Get(j, keys[0])
    else if TruthyOpt(Get(j, keys[0])) then Get(j, keys[0])
    else
      var r := FirstTruthy(j, keys[1..]);
      assert forall k :: k in keys[1..] ==> k in keys;
      assert forall k :: k in keys ==> k == keys[0] || k in keys[1..];
      if TruthyOpt(r) then
        var i :| 0 <= i < |keys[1..]| && r == Get(j, keys[1..][i])
                 && forall h :: 0 <= h < i ==> !TruthyOpt(Get(j, keys[1..][h]));
        assert r == Get(j, keys[i + 1]);
        assert forall h :: 0 <= h < i + 1 ==> !TruthyOpt(Get(j, keys[h])) by {
          forall h | 0 <= h < i + 1 ensures !TruthyOpt(Get(j, keys[h])) {
            if h > 0 { assert keys[h] == keys[1..][h - 1]; }
          }
        }
        r
      else r
  }
}
