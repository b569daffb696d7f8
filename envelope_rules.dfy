/**
 * The rules that fill an envelope's metadata fields from repository-wide
 * settings and per-page metadata. Both the `Envelope` class and the older
 * serial builder apply them.
 */
module EnvelopeRules {
  import opened Wrappers
  import Paths
  import opened Text

  /** A configuration value that Sphinx leaves unset or holds as a string or a boolean. */
  datatype Setting = Unset | Text(s: string) | Flag(b: bool)

  /** `d.get(key)` on a string map. */
  function Get(m: map<string, string>, key: string): Option<string>
  {
    if key in m then Some(m[key]) else None
  }

  /** Python truthiness of an optional string. */
  predicate Truthy(s: Option<string>)
  {
    s.Some? && s.value != ""
  }

  // ---------------------------------------------------------------------------
  // Metadata

  /** `meta = repo.copy(); meta.update(page)`: per-page entries win, repository entries fill the rest. */
  function MergeMeta(repo: map<string, string>, page: map<string, string>): (m: map<string, string>)
    ensures m.Keys == repo.Keys + page.Keys
    ensures forall k :: k in page ==> m[k] == page[k]
    ensures forall k :: k in repo && k !in page ==> m[k] == repo[k]
  {
    repo + page
  }

  /** `s.lstrip('/')`. */
  function LStripSlashes(s: string): (r: string)
    ensures !Paths.StartsWithSlash(r)
    ensures |r| <= |s| && s[|s| - |r|..] == r
    ensures forall i :: 0 <= i < |s| - |r| ==> s[i] == '/'
  {
    if Paths.StartsWithSlash(s) then LStripSlashes(s[1..]) else s
  }

  /** `s.strip('/')`: no slash is left at either end. */
  function StripSlashes(s: string): (r: string)
    ensures !Paths.StartsWithSlash(r) && !Paths.EndsWithSlash(r)
  {
    var l := LStripSlashes(s);
    var r := Paths.RStripSlashes(l);
    assert r != [] ==> r[0] == l[0];
    r
  }

  /** `'/'.join(seg.strip('/') for seg in [url, 'edit', branch, source])`. */
  function EditUrl(githubUrl: string, branch: string, source: string): string
  {
    StripSlashes(githubUrl) + "/edit/" + StripSlashes(branch) + "/" + StripSlashes(source)
  }

  // ---------------------------------------------------------------------------
  // Searchability, layout, title

  /** `page.get(key, default)` for a setting that may come from either side. */
  function PageSetting(page: map<string, string>, key: string, default: Setting): Setting
  {
    if key in page then Text(page[key]) else default
  }

  /** `None` stays unset; any other value is true exactly when it equals `'true'` or `True`. */
  function Unsearchable(v: Setting): (r: Option<bool>)
    ensures r.None? <==> v.Unset?
    ensures r == Some(true) <==> v == Text("true") || v == Flag(true)
  {
    if v.Unset? then None else Some(v == Text("true") || v == Flag(true))
  }

  const UnsearchableKey: string := "deconstunsearchable"
  const LayoutKeyName: string := "deconstlayout"
  const CategoriesKey: string := "deconstcategories"
  const TitleKey: string := "deconsttitle"

  /** How a page's searchability is decided from its metadata and the repository default. */
  lemma PageUnsearchable(page: map<string, string>, default: Setting)
    ensures var r := Unsearchable(PageSetting(page, UnsearchableKey, default));
      && (r.None? <==> UnsearchableKey !in page && default.Unset?)
      && (r == Some(true) <==>
            (UnsearchableKey in page && page[UnsearchableKey] == "true") ||
            (UnsearchableKey !in page && (default == Text("true") || default == Flag(true))))
      && (UnsearchableKey in page && page[UnsearchableKey] == "false" ==> r == Some(false))
  {
  }

  /** `page.get('deconstlayout', default)`. */
  function LayoutKey(page: map<string, string>, default: Option<string>): (r: Option<string>)
    ensures LayoutKeyName in page ==> r == Some(page[LayoutKeyName])
    ensures LayoutKeyName !in page ==> r == default
  {
    if LayoutKeyName in page then Some(page[LayoutKeyName]) else default
  }

  /** A `deconsttitle` entry replaces the title, even when it is empty. */
  function Title(title: Option<string>, page: map<string, string>): (r: Option<string>)
    ensures TitleKey in page ==> r == Some(page[TitleKey])
    ensures TitleKey !in page ==> r == title
  {
    if TitleKey in page then Some(page[TitleKey]) else title
  }

  // ---------------------------------------------------------------------------
  // Categories

  function LStripSpace(s: string): (r: string)
    ensures |r| <= |s| && s[|s| - |r|..] == r
    ensures r == [] || !IsSpace(r[0])
  {
    if s != [] && IsSpace(s[0]) then LStripSpace(s[1..]) else s
  }

  function RStripSpace(s: string): (r: string)
    ensures r <= s
    ensures r == [] || !IsSpace(r[|r| - 1])
  {
    if s != [] && IsSpace(s[|s| - 1]) then RStripSpace(s[..|s| - 1]) else s
  }

  /** A slice holds only characters of the string it is cut from. */
  lemma SliceChars(s: string, i: int, j: int)
    requires 0 <= i <= j <= |s|
    ensures forall c :: c in s[i..j] ==> c in s
  {
    forall c | c in s[i..j] ensures c in s {
      var k :| i <= k < j && s[k] == c;
    }
  }

  /** One piece of the split, with whitespace removed on the sides that touch a separating comma. */
  function TrimPiece(p: string, left: bool, right: bool): (q: string)
    ensures forall c :: c in q ==> c in p
    ensures left ==> q == [] || !IsSpace(q[0])
    ensures right ==> q == [] || !IsSpace(q[|q| - 1])
  {
    var l := if left then LStripSpace(p) else p;
    var q := if right then RStripSpace(l) else l;
    SliceChars(p, |p| - |l|, |p|);
    SliceChars(l, 0, |q|);
    assert left && q != [] ==> q[0] == l[0];
    q
  }

  /**
   * `re.split(r"\s*,\s*", s)`: the comma-separated pieces, each losing the
   * whitespace that touches a separating comma (the outer ends are kept).
   */
  function SplitCategories(s: string): (r: seq<string>)
    ensures |r| == |SplitOn(s, ',')|
    ensures forall i :: 0 <= i < |r| ==> ',' !in r[i]
    ensures forall i :: 0 < i < |r| ==> r[i] == [] || !IsSpace(r[i][0])
    ensures forall i :: 0 <= i < |r| - 1 ==> r[i] == [] || !IsSpace(r[i][|r[i]| - 1])
  {
    var pieces := SplitOn(s, ',');
    var r := seq(|pieces|, i requires 0 <= i < |pieces| => TrimPiece(pieces[i], i > 0, i < |pieces| - 1));
    assert forall i :: 0 <= i < |r| ==> r[i] == TrimPiece(pieces[i], i > 0, i < |pieces| - 1);
    r
  }

  /** A value without commas is a single category, untouched. */
  lemma SplitWithoutComma(s: string)
    requires ',' !in s
    ensures SplitCategories(s) == [s]
  {
    SplitOnWithout(s, ',');
  }

  function Elems(xs: seq<string>): set<string>
  {
    set x | x in xs
  }

  predicate Distinct(xs: seq<string>)
  {
    forall i, j :: 0 <= i < j < |xs| ==> xs[i] != xs[j]
  }

  /** `list(set(xs))`, keeping each value's first occurrence: the same values, each once. */
  function Dedup(xs: seq<string>): (r: seq<string>)
    ensures Distinct(r)
    ensures Elems(r) == Elems(xs)
    decreases |xs|
  {
    if xs == [] then []
    else
      var init, last := xs[..|xs| - 1], xs[|xs| - 1];
      var r := Dedup(init);
      assert xs == init + [last];
      assert Elems(xs) == Elems(init) + {last};
      if last in r then r else r + [last]
  }

  /**
   * `_populate_categories`: unset unless the page or the repository lists
   * categories; otherwise the union of the page's comma-separated list and
   * the repository's list, with no value twice.
   */
  function Categories(pageCats: Option<string>, globalCats: Option<seq<string>>): (r: Option<seq<string>>)
    ensures r.None? <==> pageCats.None? && globalCats.None?
    ensures r.Some? ==> Distinct(r.value)
    ensures r.Some? ==>
      Elems(r.value) ==
        (if pageCats.Some? then Elems(SplitCategories(pageCats.value)) else {}) +
        (if globalCats.Some? then Elems(globalCats.value) else {})
  {
    if pageCats.None? && globalCats.None? then None
    else
      var fromPage := if pageCats.Some? then SplitCategories(pageCats.value) else [];
      var all := fromPage + globalCats.GetOr([]);
      assert Elems(all) == Elems(fromPage) + Elems(globalCats.GetOr([]));
      Some(Dedup(all))
  }

  lemma SplitOnExample()
    ensures SplitOn("a , b", ',') == ["a ", " b"]
  {
    SplitOnWithout(" b", ',');
    assert ", b"[1..] == " b";
    assert SplitOn(", b", ',') == ["", " b"];
    assert " , b"[1..] == ", b";
    assert ["", " b"][1..] == [" b"] && [' '] + "" == " ";
    assert SplitOn(" , b", ',') == [" ", " b"];
    assert "a , b"[1..] == " , b";
    assert [" ", " b"][1..] == [" b"] && ['a'] + " " == "a ";
  }

  lemma RStripExample()
    ensures RStripSpace("a ") == "a"
  {
    assert IsSpace(' ') && !IsSpace('a');
    assert "a "[..1] == "a" && "a"[..0] == "";
  }

  lemma LStripExample()
    ensures LStripSpace(" b") == "b"
  {
    assert IsSpace(' ') && !IsSpace('b');
    assert " b"[1..] == "b";
  }

  lemma TrimExample()
    ensures TrimPiece("a ", false, true) == "a"
    ensures TrimPiece(" b", true, false) == "b"
  {
    RStripExample();
    LStripExample();
  }

  /** Whitespace around a separating comma is dropped. */
  lemma SplitExample()
    ensures SplitCategories("a , b") == ["a", "b"]
  {
    SplitOnExample();
    TrimExample();
  }

  lemma DedupExample()
    ensures Dedup(["a", "b", "b", "c"]) == ["a", "b", "c"]
  {
    var all := ["a", "b", "b", "c"];
    assert all[..3][..2][..1] == ["a"] && ["a"][..0] == [];
    assert Dedup(["a"]) == ["a"];
    assert Dedup(all[..3][..2]) == ["a", "b"];
    assert Dedup(all[..3]) == ["a", "b"];
  }

  /** A category named on the page and in the repository appears once. */
  lemma CategoriesExample()
    ensures Categories(Some("a , b"), Some(["b", "c"])) == Some(["a", "b", "c"])
  {
    SplitExample();
    DedupExample();
    assert ["a", "b"] + ["b", "c"] == ["a", "b", "b", "c"];
  }
}
