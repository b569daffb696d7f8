/**
 * The structural comparison the test suite uses to report how a built
 * envelope differs from the expected one: one entry per value of the wrong
 * type, per missing or extra dictionary key, per differing scalar, and per
 * list element only one side has, lists being compared as sets. The groups
 * come in a fixed order (missing, extra, shared); Python iterates over sets
 * in no fixed order, so the entries within a group are specified as a
 * multiset.
 */
module JsonDiff {
  import opened Wrappers
  import opened JsonValue
  import opened Text

  /** A hashable value as a set element: `True == 1` and `False == 0` are one element. */
  datatype HKey = HNull | HNum(n: int) | HStr(s: string)

  /**
   * One reported difference. The coloured text of an entry with a key path
   * starts with its `Hline`; the JSON text of the values is not modelled.
   */
  datatype Entry =
    | Missing(keypath: seq<string>, expected: Json)               // a key only `expected` has
    | Extra(keypath: seq<string>, actual: Json)                   // a key only `actual` has
    | Unequal(keypath: seq<string>, actual: Json, expected: Json) // values of another type, or unequal scalars
    | MissingItem(item: HKey)                                     // a list element only `expected` has
    | ExtraItem(item: HKey)                                       // a list element only `actual` has

  /** `set()` of a list holding a list or a dictionary. */
  datatype Error = TypeError

  /** Python's `type(v)`: `bool` and `int` are different types. */
  datatype PyType = NoneType | BoolType | IntType | StrType | ListType | DictType

  function TypeOf(v: Json): PyType
  {
    match v
    case JNull => NoneType
    case JBool(_) => BoolType
    case JInt(_) => IntType
    case JStr(_) => StrType
    case JList(_) => ListType
    case JDict(_) => DictType
  }

  /** The number a boolean or an integer stands for in comparisons. */
  function Num(v: Json): Option<int>
  {
    match v
    case JBool(b) => Some(if b then 1 else 0)
    case JInt(i) => Some(i)
    case _ => None
  }

  /** Python's `==`: numbers by value (`True == 1`), lists element by element, dictionaries key by key. */
  predicate PyEq(a: Json, b: Json)
    decreases a
  {
    if Num(a).Some? || Num(b).Some? then Num(a) == Num(b)
    else match a
      case JNull => b.JNull?
      case JStr(s) => b == JStr(s)
      case JList(xs) =>
        b.JList? && |xs| == |b.items| && forall i :: 0 <= i < |xs| ==> PyEq(xs[i], b.items[i])
      case JDict(m) =>
        b.JDict? && m.Keys == b.fields.Keys && forall k :: k in m ==> PyEq(m[k], b.fields[k])
      case _ => false
  }

  lemma {:induction false} PyEqReflexive(v: Json)
    ensures PyEq(v, v)
    decreases v
  {
    match v
    case JList(xs) =>
      forall i | 0 <= i < |xs| ensures PyEq(xs[i], xs[i]) {
        PyEqReflexive(xs[i]);
      }
    case JDict(m) =>
      forall k | k in m ensures PyEq(m[k], m[k]) {
        PyEqReflexive(m[k]);
      }
    case _ =>
  }

  predicate Hashable(v: Json)
  {
    !v.JList? && !v.JDict?
  }

  predicate AllHashable(xs: seq<Json>)
  {
    forall i :: 0 <= i < |xs| ==> Hashable(xs[i])
  }

  /** The set element a hashable value becomes. */
  function Key(v: Json): HKey
    requires Hashable(v)
  {
    match v
    case JNull => HNull
    case JBool(b) => HNum(if b then 1 else 0)
    case JInt(i) => HNum(i)
    case JStr(s) => HStr(s)
  }

  /** Two hashable values are one set element exactly when Python finds them equal. */
  lemma KeyMatchesPyEq(u: Json, v: Json)
    requires Hashable(u) && Hashable(v)
    ensures Key(u) == Key(v) <==> PyEq(u, v)
  {
  }

  /** `set(xs)`. */
  function Keys(xs: seq<Json>): set<HKey>
    requires AllHashable(xs)
  {
    set i | 0 <= i < |xs| :: Key(xs[i])
  }

  // ---------------------------------------------------------------------------
  // Sums over sets, in any order

  /** The entries `f(x)` of every `x` in `s` together. */
  ghost function Sum<T>(s: set<T>, f: T -> multiset<Entry>): multiset<Entry>
    decreases s
  {
    if s == {} then multiset{}
    else
      var x :| x in s;
      f(x) + Sum(s - {x}, f)
  }

  /** The sum does not depend on which element is taken first. */
  lemma {:induction false} SumPick<T>(s: set<T>, f: T -> multiset<Entry>, y: T)
    requires y in s
    ensures Sum(s, f) == f(y) + Sum(s - {y}, f)
    decreases s
  {
    var x :| x in s && Sum(s, f) == f(x) + Sum(s - {x}, f);
    if x != y {
      SumPick(s - {x}, f, y);
      SumPick(s - {y}, f, x);
      assert s - {x} - {y} == s - {y} - {x};
    }
  }

  /** Adding one more element adds its entries. */
  lemma SumAdd<T>(s: set<T>, f: T -> multiset<Entry>, y: T)
    requires y !in s
    ensures Sum(s + {y}, f) == Sum(s, f) + f(y)
  {
    SumPick(s + {y}, f, y);
    assert s + {y} - {y} == s;
  }

  /** One entry per element gives as many entries as elements. */
  lemma {:induction false} SumCount<T>(s: set<T>, f: T -> multiset<Entry>)
    requires forall x :: x in s ==> |f(x)| == 1
    ensures |Sum(s, f)| == |s|
    decreases s
  {
    if s != {} {
      var x :| x in s;
      SumPick(s, f, x);
      SumCount(s - {x}, f);
    }
  }

  /** No entries from any element, none in all. */
  lemma {:induction false} SumEmpty<T>(s: set<T>, f: T -> multiset<Entry>)
    requires forall x :: x in s ==> f(x) == multiset{}
    ensures Sum(s, f) == multiset{}
    decreases s
  {
    if s != {} {
      var x :| x in s;
      SumPick(s, f, x);
      SumEmpty(s - {x}, f);
    }
  }

  // ---------------------------------------------------------------------------
  // What `diff` reports

  /**
   * Whether `diff(actual, expected)` raises: lists of the same type are
   * turned into sets, which fails on a list or dictionary element, and
   * dictionaries raise when a shared key with unequal values does.
   */
  ghost predicate Raises(actual: Json, expected: Json)
    decreases expected
  {
    if TypeOf(actual) != TypeOf(expected) then false
    else if expected.JList? then !AllHashable(actual.items) || !AllHashable(expected.items)
    else if expected.JDict? then
      exists k :: k in expected.fields && k in actual.fields && !PyEq(expected.fields[k], actual.fields[k]) &&
                  Raises(actual.fields[k], expected.fields[k])
    else false
  }

  /** `_missing` for each key only `expected` has. */
  function MissingOf(expected: map<string, Json>, keypath: seq<string>): string -> multiset<Entry>
  {
    k => if k in expected then multiset{Missing(keypath + [k], expected[k])} else multiset{}
  }

  /** `_extra` for each key only `actual` has. */
  function ExtraOf(actual: map<string, Json>, keypath: seq<string>): string -> multiset<Entry>
  {
    k => if k in actual then multiset{Extra(keypath + [k], actual[k])} else multiset{}
  }

  function MissingItemOf(k: HKey): multiset<Entry>
  {
    multiset{MissingItem(k)}
  }

  function ExtraItemOf(k: HKey): multiset<Entry>
  {
    multiset{ExtraItem(k)}
  }

  /** The entries of `diff(actual, expected, keypath)`, in any order. */
  ghost function Differences(actual: Json, expected: Json, keypath: seq<string>): multiset<Entry>
    requires !Raises(actual, expected)
    decreases expected, 2
  {
    if TypeOf(actual) != TypeOf(expected) then multiset{Unequal(keypath, actual, expected)}
    else if expected.JList? then ListDifferences(actual.items, expected.items)
    else if expected.JDict? then DictDifferences(actual.fields, expected.fields, keypath)
    else if actual == expected then multiset{}
    else multiset{Unequal(keypath, actual, expected)}
  }

  /** `_diff_lists`: the elements only `expected` has, then those only `actual` has; no key path. */
  ghost function ListDifferences(actual: seq<Json>, expected: seq<Json>): multiset<Entry>
    requires AllHashable(actual) && AllHashable(expected)
  {
    Sum(Keys(expected) - Keys(actual), MissingItemOf) + Sum(Keys(actual) - Keys(expected), ExtraItemOf)
  }

  /** The entries of one shared key: none when the values are equal, otherwise their own differences. */
  ghost function SharedOf(actual: map<string, Json>, expected: map<string, Json>, keypath: seq<string>)
    : string -> multiset<Entry>
    decreases JDict(expected), 0
  {
    k => if k in expected && k in actual && !PyEq(expected[k], actual[k]) && !Raises(actual[k], expected[k])
         then Differences(actual[k], expected[k], keypath + [k])
         else multiset{}
  }

  /** `_diff_dicts`: one entry per missing key, one per extra key, and the differences under shared keys. */
  ghost function DictDifferences(actual: map<string, Json>, expected: map<string, Json>, keypath: seq<string>)
    : multiset<Entry>
    decreases JDict(expected), 1
  {
    Sum(expected.Keys - actual.Keys, MissingOf(expected, keypath))
    + Sum(actual.Keys - expected.Keys, ExtraOf(actual, keypath))
    + Sum(expected.Keys * actual.Keys, SharedOf(actual, expected, keypath))
  }

  // ---------------------------------------------------------------------------
  // The comparison itself

  /** `set(xs)`: raises on the first list or dictionary element. */
  method HashSet(xs: seq<Json>) returns (r: Result<set<HKey>, Error>)
    ensures r.Failure? <==> !AllHashable(xs)
    ensures r.Success? ==> r.value == Keys(xs)
  {
    var s: set<HKey> := {};
    for i := 0 to |xs|
      invariant AllHashable(xs[..i])
      invariant s == Keys(xs[..i])
    {
      if !Hashable(xs[i]) {
        return Failure(TypeError);
      }
      assert Keys(xs[..i + 1]) == Keys(xs[..i]) + {Key(xs[i])} by {
        assert forall j :: 0 <= j < i ==> xs[..i + 1][j] == xs[..i][j];
      }
      s := s + {Key(xs[i])};
    }
    assert xs[..|xs|] == xs;
    r := Success(s);
  }

  /** `diff(actual, expected, keypath)`: the differences in the order the loops meet them. */
  method Diff(actual: Json, expected: Json, keypath: seq<string>) returns (r: Result<seq<Entry>, Error>)
    ensures r.Failure? <==> Raises(actual, expected)
    ensures r.Success? ==> multiset(r.value) == Differences(actual, expected, keypath)
    decreases expected, 2
  {
    if TypeOf(expected) != TypeOf(actual) {
      return Success([Unequal(keypath, actual, expected)]);
    }
    if expected.JList? {
      r := DiffLists(actual.items, expected.items);
      return;
    }
    if expected.JDict? {
      r := DiffDicts(actual.fields, expected.fields, keypath);
      return;
    }
    if actual == expected {
      return Success([]);
    }
    return Success([Unequal(keypath, actual, expected)]);
  }

  /** `_diff_lists`: both lists become sets; the elements only `expected` has come first, then those only `actual` has. */
  method DiffLists(actual: seq<Json>, expected: seq<Json>) returns (r: Result<seq<Entry>, Error>)
    ensures r.Failure? <==> !AllHashable(actual) || !AllHashable(expected)
    ensures r.Success? ==> AllHashable(actual) && AllHashable(expected) &&
                           multiset(r.value) == ListDifferences(actual, expected)
    ensures r.Success? ==>
      AllHashable(actual) && AllHashable(expected) &&
      exists n :: 0 <= n <= |r.value| &&
        multiset(r.value[..n]) == ItemsOf(Keys(expected) - Keys(actual), true) &&
        multiset(r.value[n..]) == ItemsOf(Keys(actual) - Keys(expected), false)
  {
    var actualSet := HashSet(actual);
    if actualSet.Failure? {
      return Failure(actualSet.error);
    }
    var expectedSet := HashSet(expected);
    if expectedSet.Failure? {
      return Failure(expectedSet.error);
    }
    var diffs := ItemEntries(expectedSet.value - actualSet.value, true, []);
    assert diffs[0..] == diffs;
    ghost var n := |diffs|;
    diffs := ItemEntries(actualSet.value - expectedSet.value, false, diffs);
    SplitMultiset(diffs, n);
    r := Success(diffs);
  }

  /** A sequence's entries are those of its two parts. */
  lemma SplitMultiset(r: seq<Entry>, n: nat)
    requires n <= |r|
    ensures multiset(r) == multiset(r[..n]) + multiset(r[n..])
  {
    assert r == r[..n] + r[n..];
  }

  /** Appending keeps the first `n` entries and adds to those after them. */
  lemma Appended(r: seq<Entry>, sub: seq<Entry>, n: nat)
    requires n <= |r|
    ensures |r + sub| >= n && (r + sub)[..n] == r[..n]
    ensures multiset((r + sub)[n..]) == multiset(r[n..]) + multiset(sub)
  {
    assert (r + sub)[n..] == r[n..] + sub;
  }

  /** A sequence that starts with `first` splits into three parts at `n` and `|first|`. */
  lemma ThreeGroups(r: seq<Entry>, first: seq<Entry>, n: nat)
    requires n <= |first| <= |r| && r[..|first|] == first
    ensures r[..n] == first[..n] && r[n..|first|] == first[n..]
    ensures multiset(r) == multiset(first[..n]) + multiset(first[n..]) + multiset(r[|first|..])
  {
    assert r == first[..n] + first[n..] + r[|first|..];
  }

  /** The entries of the elements in `items` of one side only. */
  ghost function ItemsOf(items: set<HKey>, missing: bool): multiset<Entry>
  {
    Sum(items, if missing then MissingItemOf else ExtraItemOf)
  }

  /** Taking one more element out of what is left adds its one entry. */
  lemma ItemsGrow(items: set<HKey>, left: set<HKey>, k: HKey, missing: bool)
    requires k in left && left <= items
    ensures ItemsOf(items - (left - {k}), missing) ==
      ItemsOf(items - left, missing) + multiset{if missing then MissingItem(k) else ExtraItem(k)}
  {
    var done := items - left;
    assert items - (left - {k}) == done + {k};
    SumAdd(done, if missing then MissingItemOf else ExtraItemOf, k);
  }

  /** One loop of `_diff_lists`: appends the entry of every element of `items`, in any order. */
  method ItemEntries(items: set<HKey>, missing: bool, diffs: seq<Entry>) returns (r: seq<Entry>)
    ensures |diffs| <= |r| && r[..|diffs|] == diffs
    ensures multiset(r[|diffs|..]) == ItemsOf(items, missing)
  {
    r := diffs;
    var left := items;
    while left != {}
      invariant left <= items
      invariant |diffs| <= |r| && r[..|diffs|] == diffs
      invariant multiset(r[|diffs|..]) == ItemsOf(items - left, missing)
      decreases left
    {
      var k :| k in left;
      var x := if missing then MissingItem(k) else ExtraItem(k);
      ItemsGrow(items, left, k, missing);
      Appended(r, [x], |diffs|);
      r := r + [x];
      left := left - {k};
    }
    assert items - left == items;
  }

  /**
   * `_diff_dicts`: an entry for each key only `expected` has, one for each
   * key only `actual` has, then the differences under each shared key whose
   * values are unequal.
   */
  method DiffDicts(actual: map<string, Json>, expected: map<string, Json>, keypath: seq<string>)
    returns (r: Result<seq<Entry>, Error>)
    ensures r.Failure? <==> Raises(JDict(actual), JDict(expected))
    ensures r.Success? ==> multiset(r.value) == DictDifferences(actual, expected, keypath)
    ensures r.Success? ==>
      exists n1, n2 :: 0 <= n1 <= n2 <= |r.value| &&
        multiset(r.value[..n1]) == KeysOf(expected, expected.Keys - actual.Keys, keypath, true) &&
        multiset(r.value[n1..n2]) == KeysOf(actual, actual.Keys - expected.Keys, keypath, false) &&
        multiset(r.value[n2..]) == SharedSum(actual, expected, expected.Keys * actual.Keys, keypath)
    decreases JDict(expected), 1
  {
    var diffs := KeyEntries(expected, actual.Keys, keypath, true, []);
    assert diffs[0..] == diffs;
    ghost var n1 := |diffs|;
    diffs := KeyEntries(actual, expected.Keys, keypath, false, diffs);
    ghost var n2 := |diffs|;
    r := SharedEntries(actual, expected, keypath, diffs);
    if r.Success? {
      ThreeGroups(r.value, diffs, n1);
    }
  }

  /** The entries of the keys in `keys`, each found in `m`. */
  ghost function KeysOf(m: map<string, Json>, keys: set<string>, keypath: seq<string>, missing: bool): multiset<Entry>
  {
    Sum(keys, if missing then MissingOf(m, keypath) else ExtraOf(m, keypath))
  }

  /** One more key adds its one entry. */
  lemma KeysGrow(m: map<string, Json>, done: set<string>, keypath: seq<string>, missing: bool, k: string)
    requires k in m && k !in done
    ensures KeysOf(m, done + {k}, keypath, missing) ==
            KeysOf(m, done, keypath, missing) +
            multiset{if missing then Missing(keypath + [k], m[k]) else Extra(keypath + [k], m[k])}
  {
    SumAdd(done, if missing then MissingOf(m, keypath) else ExtraOf(m, keypath), k);
  }

  /** The first two loops of `_diff_dicts`: an entry for each key of `m` that `other` lacks. */
  method KeyEntries(m: map<string, Json>, other: set<string>, keypath: seq<string>, missing: bool, diffs: seq<Entry>)
    returns (r: seq<Entry>)
    ensures |diffs| <= |r| && r[..|diffs|] == diffs
    ensures multiset(r[|diffs|..]) == KeysOf(m, m.Keys - other, keypath, missing)
  {
    r := diffs;
    var keys := m.Keys - other;
    var left := keys;
    while left != {}
      invariant left <= keys
      invariant |diffs| <= |r| && r[..|diffs|] == diffs
      invariant multiset(r[|diffs|..]) == KeysOf(m, keys - left, keypath, missing)
      decreases left
    {
      var k :| k in left;
      var x := if missing then Missing(keypath + [k], m[k]) else Extra(keypath + [k], m[k]);
      KeysGrow(m, keys - left, keypath, missing, k);
      assert keys - (left - {k}) == (keys - left) + {k};
      Appended(r, [x], |diffs|);
      r := r + [x];
      left := left - {k};
    }
    assert keys - left == keys;
  }

  /** The differences under the shared keys in `keys`. */
  ghost function SharedSum(actual: map<string, Json>, expected: map<string, Json>, keys: set<string>, keypath: seq<string>)
    : multiset<Entry>
  {
    Sum(keys, SharedOf(actual, expected, keypath))
  }

  /** One more shared key adds nothing when its values are equal, otherwise their differences. */
  lemma SharedGrow(actual: map<string, Json>, expected: map<string, Json>, done: set<string>, keypath: seq<string>, k: string)
    requires k in actual && k in expected && k !in done
    requires !PyEq(expected[k], actual[k]) ==> !Raises(actual[k], expected[k])
    ensures SharedSum(actual, expected, done + {k}, keypath) ==
            SharedSum(actual, expected, done, keypath) +
            if PyEq(expected[k], actual[k]) then multiset{} else Differences(actual[k], expected[k], keypath + [k])
  {
    SumAdd(done, SharedOf(actual, expected, keypath), k);
  }

  /** A shared key with unequal values that raises makes the dictionaries raise. */
  lemma RaisesAt(actual: map<string, Json>, expected: map<string, Json>, k: string)
    requires k in actual && k in expected && !PyEq(expected[k], actual[k]) && Raises(actual[k], expected[k])
    ensures Raises(JDict(actual), JDict(expected))
  {
  }

  /** Taking one more shared key out of what is left keeps the last loop's invariants. */
  lemma SharedStep(actual: map<string, Json>, expected: map<string, Json>, keys: set<string>, left: set<string>,
                   keypath: seq<string>, k: string)
    requires keys == expected.Keys * actual.Keys && left <= keys && k in left
    requires Quiet(actual, expected, keys - left)
    requires !PyEq(expected[k], actual[k]) ==> !Raises(actual[k], expected[k])
    ensures Quiet(actual, expected, keys - (left - {k}))
    ensures SharedSum(actual, expected, keys - (left - {k}), keypath) ==
            SharedSum(actual, expected, keys - left, keypath) +
            if PyEq(expected[k], actual[k]) then multiset{} else Differences(actual[k], expected[k], keypath + [k])
  {
    assert keys - (left - {k}) == (keys - left) + {k};
    SharedGrow(actual, expected, keys - left, keypath, k);
  }

  /** No shared key in `keys` with unequal values raises. */
  ghost predicate Quiet(actual: map<string, Json>, expected: map<string, Json>, keys: set<string>)
  {
    forall k :: k in keys && k in actual && k in expected && !PyEq(expected[k], actual[k]) ==> !Raises(actual[k], expected[k])
  }

  /** Two dictionaries raise exactly when some shared key does. */
  lemma QuietRaises(actual: map<string, Json>, expected: map<string, Json>)
    ensures Raises(JDict(actual), JDict(expected)) <==> !Quiet(actual, expected, expected.Keys * actual.Keys)
  {
  }

  /** The last loop of `_diff_dicts`: recurses into each shared key whose values are unequal. */
  method SharedEntries(actual: map<string, Json>, expected: map<string, Json>, keypath: seq<string>, diffs: seq<Entry>)
    returns (r: Result<seq<Entry>, Error>)
    ensures r.Failure? <==> Raises(JDict(actual), JDict(expected))
    ensures r.Success? ==> |diffs| <= |r.value| && r.value[..|diffs|] == diffs
    ensures r.Success? ==>
      multiset(r.value[|diffs|..]) == SharedSum(actual, expected, expected.Keys * actual.Keys, keypath)
    decreases JDict(expected), 0
  {
    var acc := diffs;
    var keys := expected.Keys * actual.Keys;
    var left := keys;
    QuietRaises(actual, expected);
    while left != {}
      invariant left <= keys
      invariant Quiet(actual, expected, keys - left)
      invariant |diffs| <= |acc| && acc[..|diffs|] == diffs
      invariant multiset(acc[|diffs|..]) == SharedSum(actual, expected, keys - left, keypath)
      decreases left
    {
      var k :| k in left;
      var sub: seq<Entry> := [];
      if !PyEq(expected[k], actual[k]) {
        var d := Diff(actual[k], expected[k], keypath + [k]);
        if d.Failure? {
          RaisesAt(actual, expected, k);
          return Failure(d.error);
        }
        sub := d.value;
      }
      SharedStep(actual, expected, keys, left, keypath, k);
      Appended(acc, sub, |diffs|);
      acc := acc + sub;
      left := left - {k};
    }
    assert keys - left == keys;
    r := Success(acc);
  }

  // ---------------------------------------------------------------------------
  // What the report promises

  /** An entry of `Sum(s, f)` comes from some element of `s`. */
  lemma {:induction false} SumSupport<T>(s: set<T>, f: T -> multiset<Entry>, x: Entry)
    requires x in Sum(s, f)
    ensures exists y :: y in s && x in f(y)
    decreases s
  {
    var y :| y in s;
    SumPick(s, f, y);
    if x !in f(y) {
      SumSupport(s - {y}, f, x);
    }
  }

  /** Each element's entries are among the sum's. */
  lemma SumMember<T>(s: set<T>, f: T -> multiset<Entry>, y: T, x: Entry)
    requires y in s && x in f(y)
    ensures x in Sum(s, f)
  {
    SumPick(s, f, y);
  }

  /** Where an entry sits relative to the key path it was reported under. */
  predicate Under(x: Entry, keypath: seq<string>)
  {
    match x
    case Missing(p, _) => |keypath| < |p| && p[..|keypath|] == keypath
    case Extra(p, _) => |keypath| < |p| && p[..|keypath|] == keypath
    case Unequal(p, _, _) => |keypath| <= |p| && p[..|keypath|] == keypath
    case _ => true
  }

  /** A key path extending `keypath + [k]` extends `keypath`. */
  lemma PrefixShorten(p: seq<string>, keypath: seq<string>, k: string)
    requires |keypath| + 1 <= |p| && p[..|keypath| + 1] == keypath + [k]
    ensures p[..|keypath|] == keypath
  {
    assert p[..|keypath|] == p[..|keypath| + 1][..|keypath|];
    assert (keypath + [k])[..|keypath|] == keypath;
  }

  /** The report of two dictionaries is their missing keys, their extra keys and their shared keys' differences. */
  lemma DictParts(actual: map<string, Json>, expected: map<string, Json>, keypath: seq<string>)
    requires !Raises(JDict(actual), JDict(expected))
    ensures Differences(JDict(actual), JDict(expected), keypath) ==
            KeysOf(expected, expected.Keys - actual.Keys, keypath, true) +
            KeysOf(actual, actual.Keys - expected.Keys, keypath, false) +
            SharedSum(actual, expected, expected.Keys * actual.Keys, keypath)
  {
  }

  /** An entry for a missing or an extra key names that key and its value. */
  lemma KeyEntryShape(m: map<string, Json>, keys: set<string>, keypath: seq<string>, missing: bool, x: Entry)
    requires keys <= m.Keys
    requires x in KeysOf(m, keys, keypath, missing)
    ensures exists k :: k in keys && x == if missing then Missing(keypath + [k], m[k]) else Extra(keypath + [k], m[k])
  {
    var f := if missing then MissingOf(m, keypath) else ExtraOf(m, keypath);
    SumSupport(keys, f, x);
    var k :| k in keys && x in f(k);
    assert f(k) == multiset{if missing then Missing(keypath + [k], m[k]) else Extra(keypath + [k], m[k])};
  }

  /** An entry under a shared key comes from the differences of that key's values. */
  lemma SharedEntryShape(actual: map<string, Json>, expected: map<string, Json>, keypath: seq<string>, x: Entry)
    requires x in SharedSum(actual, expected, expected.Keys * actual.Keys, keypath)
    ensures exists k :: k in expected && k in actual && !Raises(actual[k], expected[k]) &&
                        x in Differences(actual[k], expected[k], keypath + [k])
  {
    var f := SharedOf(actual, expected, keypath);
    SumSupport(expected.Keys * actual.Keys, f, x);
    var k :| k in expected.Keys * actual.Keys && x in f(k);
  }

  /**
   * Every entry of `diff(actual, expected, keypath)` carries a key path that
   * extends `keypath`; a missing or an extra key names at least one more key.
   */
  lemma {:induction false} EntriesUnder(actual: Json, expected: Json, keypath: seq<string>, x: Entry)
    requires !Raises(actual, expected)
    requires x in Differences(actual, expected, keypath)
    ensures Under(x, keypath)
    decreases expected, 1
  {
    if TypeOf(actual) == TypeOf(expected) && expected.JDict? {
      DictEntriesUnder(actual.fields, expected.fields, keypath, x);
    } else if TypeOf(actual) == TypeOf(expected) && expected.JList? {
      ListEntriesItems(actual.items, expected.items, x);
    } else {
      assert keypath[..|keypath|] == keypath;
    }
  }

  /** The report of two lists holds only list elements. */
  lemma ListEntriesItems(actual: seq<Json>, expected: seq<Json>, x: Entry)
    requires AllHashable(actual) && AllHashable(expected)
    requires x in ListDifferences(actual, expected)
    ensures x.MissingItem? || x.ExtraItem?
  {
    if x in Sum(Keys(expected) - Keys(actual), MissingItemOf) {
      SumSupport(Keys(expected) - Keys(actual), MissingItemOf, x);
    } else {
      SumSupport(Keys(actual) - Keys(expected), ExtraItemOf, x);
    }
  }

  /** An entry under `keypath + [k]` is under `keypath`. */
  lemma UnderShorten(x: Entry, keypath: seq<string>, k: string)
    requires Under(x, keypath + [k])
    ensures Under(x, keypath)
  {
    match x
    case Missing(p, _) => PrefixShorten(p, keypath, k);
    case Extra(p, _) => PrefixShorten(p, keypath, k);
    case Unequal(p, _, _) => PrefixShorten(p, keypath, k);
    case _ =>
  }

  /** The entry of a missing or an extra key is one key below `keypath`. */
  lemma KeyEntryUnder(m: map<string, Json>, keys: set<string>, keypath: seq<string>, missing: bool, x: Entry)
    requires keys <= m.Keys
    requires x in KeysOf(m, keys, keypath, missing)
    ensures Under(x, keypath)
  {
    KeyEntryShape(m, keys, keypath, missing, x);
    var k :| k in keys && x == if missing then Missing(keypath + [k], m[k]) else Extra(keypath + [k], m[k]);
    assert (keypath + [k])[..|keypath|] == keypath;
  }

  /** `EntriesUnder` for two dictionaries. */
  lemma {:induction false} DictEntriesUnder(a: map<string, Json>, e: map<string, Json>, keypath: seq<string>, x: Entry)
    requires !Raises(JDict(a), JDict(e))
    requires x in Differences(JDict(a), JDict(e), keypath)
    ensures Under(x, keypath)
    decreases JDict(e), 0
  {
    DictParts(a, e, keypath);
    if x in KeysOf(e, e.Keys - a.Keys, keypath, true) {
      KeyEntryUnder(e, e.Keys - a.Keys, keypath, true, x);
    } else if x in KeysOf(a, a.Keys - e.Keys, keypath, false) {
      KeyEntryUnder(a, a.Keys - e.Keys, keypath, false, x);
    } else {
      SharedEntryShape(a, e, keypath, x);
      var k :| k in e && k in a && !Raises(a[k], e[k]) && x in Differences(a[k], e[k], keypath + [k]);
      EntriesUnder(a[k], e[k], keypath + [k], x);
      UnderShorten(x, keypath, k);
    }
  }

  /** A missing or an extra key right under `keypath` is one of the top-level ones. */
  lemma TopKeyEntry(actual: map<string, Json>, expected: map<string, Json>, keypath: seq<string>, x: Entry)
    requires !Raises(JDict(actual), JDict(expected))
    requires x in Differences(JDict(actual), JDict(expected), keypath)
    requires (x.Missing? || x.Extra?) && |x.keypath| == |keypath| + 1
    ensures x in KeysOf(expected, expected.Keys - actual.Keys, keypath, true) ||
            x in KeysOf(actual, actual.Keys - expected.Keys, keypath, false)
  {
    DictParts(actual, expected, keypath);
    if x in SharedSum(actual, expected, expected.Keys * actual.Keys, keypath) {
      SharedEntryShape(actual, expected, keypath, x);
      var k :| k in expected && k in actual && !Raises(actual[k], expected[k]) &&
               x in Differences(actual[k], expected[k], keypath + [k]);
      EntriesUnder(actual[k], expected[k], keypath + [k], x);
    }
  }

  /**
   * A key is reported missing right under `keypath` exactly when `expected`
   * has it and `actual` does not, with the expected value.
   */
  lemma MissingKeyReported(actual: map<string, Json>, expected: map<string, Json>, keypath: seq<string>, k: string, v: Json)
    requires !Raises(JDict(actual), JDict(expected))
    ensures Missing(keypath + [k], v) in Differences(JDict(actual), JDict(expected), keypath) <==>
            k in expected && k !in actual && v == expected[k]
  {
    var x := Missing(keypath + [k], v);
    var a, e := actual, expected;
    DictParts(a, e, keypath);
    if k in e && k !in a && v == e[k] {
      SumMember(e.Keys - a.Keys, MissingOf(e, keypath), k, x);
    }
    if x in Differences(JDict(a), JDict(e), keypath) {
      TopKeyEntry(a, e, keypath, x);
      if x in KeysOf(e, e.Keys - a.Keys, keypath, true) {
        KeyEntryShape(e, e.Keys - a.Keys, keypath, true, x);
        var y :| y in e.Keys - a.Keys && x == Missing(keypath + [y], e[y]);
        assert (keypath + [k])[|keypath|] == k && (keypath + [y])[|keypath|] == y;
      } else {
        KeyEntryShape(a, a.Keys - e.Keys, keypath, false, x);
      }
    }
  }

  /**
   * A key is reported extra right under `keypath` exactly when `actual` has
   * it and `expected` does not, with the actual value.
   */
  lemma ExtraKeyReported(actual: map<string, Json>, expected: map<string, Json>, keypath: seq<string>, k: string, v: Json)
    requires !Raises(JDict(actual), JDict(expected))
    ensures Extra(keypath + [k], v) in Differences(JDict(actual), JDict(expected), keypath) <==>
            k in actual && k !in expected && v == actual[k]
  {
    var x := Extra(keypath + [k], v);
    var a, e := actual, expected;
    DictParts(a, e, keypath);
    if k in a && k !in e && v == a[k] {
      SumMember(a.Keys - e.Keys, ExtraOf(a, keypath), k, x);
    }
    if x in Differences(JDict(a), JDict(e), keypath) {
      TopKeyEntry(a, e, keypath, x);
      if x in KeysOf(a, a.Keys - e.Keys, keypath, false) {
        KeyEntryShape(a, a.Keys - e.Keys, keypath, false, x);
        var y :| y in a.Keys - e.Keys && x == Extra(keypath + [y], a[y]);
        assert (keypath + [k])[|keypath|] == k && (keypath + [y])[|keypath|] == y;
      } else {
        KeyEntryShape(e, e.Keys - a.Keys, keypath, true, x);
      }
    }
  }

  /** A list element is reported missing exactly when `expected` has it and `actual` has no equal element. */
  lemma MissingItemReported(actual: seq<Json>, expected: seq<Json>, k: HKey)
    requires AllHashable(actual) && AllHashable(expected)
    ensures MissingItem(k) in ListDifferences(actual, expected) <==> k in Keys(expected) && k !in Keys(actual)
  {
    if k in Keys(expected) && k !in Keys(actual) {
      SumMember(Keys(expected) - Keys(actual), MissingItemOf, k, MissingItem(k));
    }
    if MissingItem(k) in Sum(Keys(expected) - Keys(actual), MissingItemOf) {
      SumSupport(Keys(expected) - Keys(actual), MissingItemOf, MissingItem(k));
    }
    if MissingItem(k) in Sum(Keys(actual) - Keys(expected), ExtraItemOf) {
      SumSupport(Keys(actual) - Keys(expected), ExtraItemOf, MissingItem(k));
    }
  }

  /** A list element is reported extra exactly when `actual` has it and `expected` has no equal element. */
  lemma ExtraItemReported(actual: seq<Json>, expected: seq<Json>, k: HKey)
    requires AllHashable(actual) && AllHashable(expected)
    ensures ExtraItem(k) in ListDifferences(actual, expected) <==> k in Keys(actual) && k !in Keys(expected)
  {
    if k in Keys(actual) && k !in Keys(expected) {
      SumMember(Keys(actual) - Keys(expected), ExtraItemOf, k, ExtraItem(k));
    }
    if ExtraItem(k) in Sum(Keys(expected) - Keys(actual), MissingItemOf) {
      SumSupport(Keys(expected) - Keys(actual), MissingItemOf, ExtraItem(k));
    }
    if ExtraItem(k) in Sum(Keys(actual) - Keys(expected), ExtraItemOf) {
      SumSupport(Keys(actual) - Keys(expected), ExtraItemOf, ExtraItem(k));
    }
  }

  /** One entry per element of the symmetric difference of the two sets, each reported once. */
  lemma ListCount(actual: seq<Json>, expected: seq<Json>)
    requires AllHashable(actual) && AllHashable(expected)
    ensures |ListDifferences(actual, expected)| == |Keys(expected) - Keys(actual)| + |Keys(actual) - Keys(expected)|
  {
    SumCount(Keys(expected) - Keys(actual), MissingItemOf);
    SumCount(Keys(actual) - Keys(expected), ExtraItemOf);
  }

  /** One entry per key. */
  lemma KeysCount(m: map<string, Json>, keys: set<string>, keypath: seq<string>, missing: bool)
    requires keys <= m.Keys
    ensures |KeysOf(m, keys, keypath, missing)| == |keys|
  {
    var f := if missing then MissingOf(m, keypath) else ExtraOf(m, keypath);
    forall k | k in keys ensures |f(k)| == 1 { }
    SumCount(keys, f);
  }

  /** Shared keys holding equal values add nothing. */
  lemma SharedQuiet(actual: map<string, Json>, expected: map<string, Json>, keys: set<string>, keypath: seq<string>)
    requires keys <= expected.Keys * actual.Keys
    requires forall k :: k in keys ==> PyEq(expected[k], actual[k])
    ensures SharedSum(actual, expected, keys, keypath) == multiset{}
  {
    var f := SharedOf(actual, expected, keypath);
    forall k | k in keys ensures f(k) == multiset{} { }
    SumEmpty(keys, f);
  }

  /**
   * When every shared key holds equal values, the report of two
   * dictionaries is one entry per missing key and one per extra key.
   */
  lemma DictCount(actual: map<string, Json>, expected: map<string, Json>, keypath: seq<string>)
    requires forall k :: k in expected && k in actual ==> PyEq(expected[k], actual[k])
    ensures !Raises(JDict(actual), JDict(expected))
    ensures |Differences(JDict(actual), JDict(expected), keypath)| ==
            |expected.Keys - actual.Keys| + |actual.Keys - expected.Keys|
  {
    var a, e := actual, expected;
    QuietRaises(a, e);
    KeysCount(e, e.Keys - a.Keys, keypath, true);
    KeysCount(a, a.Keys - e.Keys, keypath, false);
    SharedQuiet(a, e, e.Keys * a.Keys, keypath);
    DictParts(a, e, keypath);
  }

  /** Values Python finds equal, of one type, give an empty report whenever the comparison does not raise. */
  lemma EqualReportsNothing(actual: Json, expected: Json, keypath: seq<string>)
    requires TypeOf(actual) == TypeOf(expected) && PyEq(expected, actual)
    requires !Raises(actual, expected)
    ensures Differences(actual, expected, keypath) == multiset{}
  {
    match expected
    case JList(xs) =>
      var ys := actual.items;
      forall i | 0 <= i < |xs| ensures Key(xs[i]) == Key(ys[i]) {
        KeyMatchesPyEq(xs[i], ys[i]);
      }
      assert Keys(xs) == Keys(ys);
    case JDict(e) =>
      var a := actual.fields;
      SumEmpty(e.Keys * a.Keys, SharedOf(a, e, keypath));
      assert e.Keys - a.Keys == {} && a.Keys - e.Keys == {};
    case _ =>
  }

  /** Values of different types give exactly one entry, which names both values. */
  lemma TypeMismatchOneEntry(actual: Json, expected: Json, keypath: seq<string>)
    requires TypeOf(actual) != TypeOf(expected)
    ensures !Raises(actual, expected)
    ensures Differences(actual, expected, keypath) == multiset{Unequal(keypath, actual, expected)}
  {
  }

  /** Scalars of one type: no entry when equal, exactly one when not. */
  lemma ScalarEntries(actual: Json, expected: Json, keypath: seq<string>)
    requires TypeOf(actual) == TypeOf(expected) && Hashable(expected)
    ensures !Raises(actual, expected)
    ensures |Differences(actual, expected, keypath)| == if actual == expected then 0 else 1
  {
  }

  /** Comparing a value with itself reports nothing, whenever it does not raise. */
  lemma SelfReportsNothing(v: Json, keypath: seq<string>)
    requires !Raises(v, v)
    ensures Differences(v, v, keypath) == multiset{}
  {
    PyEqReflexive(v);
    EqualReportsNothing(v, v, keypath);
  }

  /** A list holding a list raises even against itself: `set()` cannot hold a list. */
  lemma NestedListRaises()
    ensures Raises(JList([JList([])]), JList([JList([])]))
  {
    assert !Hashable([JList([])][0]);
  }

  /** The differences under an unequal shared key are reported with that key appended to the path. */
  lemma SharedKeyReported(actual: map<string, Json>, expected: map<string, Json>, keypath: seq<string>, k: string)
    requires !Raises(JDict(actual), JDict(expected))
    requires k in actual && k in expected && !PyEq(expected[k], actual[k])
    ensures !Raises(actual[k], expected[k])
    ensures Differences(actual[k], expected[k], keypath + [k]) <= Differences(JDict(actual), JDict(expected), keypath)
  {
    QuietRaises(actual, expected);
    DictParts(actual, expected, keypath);
    SumPick(expected.Keys * actual.Keys, SharedOf(actual, expected, keypath), k);
  }

  /** Lists holding the same elements, in any order and any number of times, report nothing. */
  lemma SameElementsUnreported(actual: seq<Json>, expected: seq<Json>)
    requires AllHashable(actual) && AllHashable(expected)
    requires Keys(actual) == Keys(expected)
    ensures ListDifferences(actual, expected) == multiset{}
  {
    assert Keys(expected) - Keys(actual) == {};
  }

  /** A dictionary compared with itself reports nothing and never raises. */
  lemma DictSelfReportsNothing(m: map<string, Json>, keypath: seq<string>)
    ensures !Raises(JDict(m), JDict(m))
    ensures Differences(JDict(m), JDict(m), keypath) == multiset{}
  {
    forall k | k in m ensures PyEq(m[k], m[k]) {
      PyEqReflexive(m[k]);
    }
    PyEqReflexive(JDict(m));
    EqualReportsNothing(JDict(m), JDict(m), keypath);
  }

  /** `set([x] + xs)`. */
  lemma KeysCons(x: Json, xs: seq<Json>)
    requires Hashable(x) && AllHashable(xs)
    ensures Keys([x] + xs) == {Key(x)} + Keys(xs)
  {
    var ys := [x] + xs;
    forall k | k in Keys(ys) ensures k in {Key(x)} + Keys(xs) {
      var i :| 0 <= i < |ys| && k == Key(ys[i]);
      if i > 0 {
        assert ys[i] == xs[i - 1];
      }
    }
    forall k | k in Keys(xs) ensures k in Keys(ys) {
      var i :| 0 <= i < |xs| && k == Key(xs[i]);
      assert ys[i + 1] == xs[i];
    }
    assert ys[0] == x;
  }

  /** Lists compare as sets: reordering is not reported, though Python's `==` tells the lists apart. */
  lemma ListOrderUnreported()
    ensures !PyEq(JList([JInt(1), JInt(2)]), JList([JInt(2), JInt(1)]))
    ensures Differences(JList([JInt(1), JInt(2)]), JList([JInt(2), JInt(1)]), []) == multiset{}
  {
    KeysCons(JInt(2), []);
    KeysCons(JInt(1), []);
    KeysCons(JInt(1), [JInt(2)]);
    KeysCons(JInt(2), [JInt(1)]);
    assert [JInt(1)] + [JInt(2)] == [JInt(1), JInt(2)];
    assert [JInt(2)] + [JInt(1)] == [JInt(2), JInt(1)];
  }

  /** `True` is reported against `1` at the top, but not as a list element, where it is the same set element. */
  lemma BoolAgainstInt()
    ensures Differences(JBool(true), JInt(1), []) == multiset{Unequal([], JBool(true), JInt(1))}
    ensures Differences(JList([JBool(true)]), JList([JInt(1)]), []) == multiset{}
  {
    KeysCons(JBool(true), []);
    KeysCons(JInt(1), []);
    assert [JBool(true)] + [] == [JBool(true)];
    assert [JInt(1)] + [] == [JInt(1)];
  }

  // ---------------------------------------------------------------------------
  // Header lines

  /** `'.'.join(keypath)`. */
  function DottedPath(keypath: seq<string>): string
  {
    if keypath == [] then "" else JoinOn(keypath, '.')
  }

  /** `_hline` without its colour: the operator, a space and the dotted key path. */
  function Hline(op: char, keypath: seq<string>): (r: string)
    ensures |r| >= 2 && r[0] == op && r[1] == ' '
    ensures |keypath| == 1 ==> r[2..] == keypath[0]
  {
    [op] + " " + DottedPath(keypath)
  }

  /** The key path can be read back from the header line when no key holds a dot. */
  lemma HlineKeypath(op: char, keypath: seq<string>)
    requires keypath != []
    requires forall i :: 0 <= i < |keypath| ==> '.' !in keypath[i]
    ensures SplitOn(Hline(op, keypath)[2..], '.') == keypath
  {
    assert Hline(op, keypath)[2..] == JoinOn(keypath, '.');
    SplitOnJoinOn(keypath, '.');
  }

  /** A key holding a dot makes two different key paths print alike. */
  lemma HlineAmbiguous()
    ensures Hline('-', ["a.b"]) == Hline('-', ["a", "b"])
  {
  }
}
