/** JSON-like values: what the builders serialize and what the test diff compares. */
module JsonValue {
  import opened Wrappers

  datatype Json =
    | JNull
    | JBool(b: bool)
    | JInt(i: int)
    | JStr(s: string)
    | JList(items: seq<Json>)
    | JDict(fields: map<string, Json>)

  /** A list of strings as a JSON array. */
  function StrList(xs: seq<string>): Json
  {
    JList(seq(|xs|, i requires 0 <= i < |xs| => JStr(xs[i])))
  }

  /** A string-to-string map as a JSON object. */
  function StrDict(m: map<string, string>): Json
  {
    JDict(map k | k in m :: JStr(m[k]))
  }

  /** The strings of a JSON array of strings; `None` for anything else. */
  function AsStrList(j: Json): (r: Option<seq<string>>)
    ensures r.Some? ==> j == StrList(r.value)
  {
    if j.JList? && forall i :: 0 <= i < |j.items| ==> j.items[i].JStr? then
      Some(seq(|j.items|, i requires 0 <= i < |j.items| => j.items[i].s))
    else None
  }

  /** The entries of a JSON object whose values are all strings; `None` for anything else. */
  function AsStrDict(j: Json): (r: Option<map<string, string>>)
    ensures r.Some? ==> j == StrDict(r.value)
  {
    if j.JDict? && forall k :: k in j.fields ==> j.fields[k].JStr? then
      Some(map k | k in j.fields :: j.fields[k].s)
    else None
  }

  lemma AsStrListOfStrList(xs: seq<string>)
    ensures AsStrList(StrList(xs)) == Some(xs)
  {
    var j := StrList(xs);
    assert forall i :: 0 <= i < |j.items| ==> j.items[i].JStr?;
    var r := seq(|j.items|, i requires 0 <= i < |j.items| => j.items[i].s);
    assert r == xs;
  }

  lemma AsStrDictOfStrDict(m: map<string, string>)
    ensures AsStrDict(StrDict(m)) == Some(m)
  {
    var j := StrDict(m);
    assert forall k :: k in j.fields ==> j.fields[k].JStr?;
    var r := map k | k in j.fields :: j.fields[k].s;
    assert r == m;
  }
}
