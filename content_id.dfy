/**
 * Content-ID derivation: the stable external identifier of a document's
 * envelope, computed from the configured base URL and the document name.
 */
module ContentId {
  import opened Paths

  /**
   * The part of the identifier contributed by the document name: a final
   * `index` segment collapses to its directory, any other name is kept whole.
   */
  function Suffix(docname: string): string
  {
    var (dirname, basename) := Split(docname);
    if basename == "index" then dirname else docname
  }

  /**
   * `derive_content_id`: join the base and the suffix, then drop one
   * trailing slash if there is one.
   */
  function DeriveContentId(contentIdBase: string, docname: string): string
  {
    DropTrailingSlash(Join(contentIdBase, Suffix(docname)))
  }

  /** The identifier is the joined path, or the joined path less its one trailing slash. */
  lemma DeriveContentIdJoined(contentIdBase: string, docname: string)
    ensures var joined := Join(contentIdBase, Suffix(docname));
      var id := DeriveContentId(contentIdBase, docname);
      if EndsWithSlash(joined) then id + "/" == joined else id == joined
  {
    DropTrailingSlashRestores(Join(contentIdBase, Suffix(docname)));
  }

  /** A docname ending in `/index` has `index` as its last segment. */
  lemma SlashIndexTail(docname: string)
    requires |docname| >= 6 && docname[|docname| - 6..] == "/index"
    ensures Split(docname).1 == "index"
  {
    var dir := docname[..|docname| - 6];
    assert docname == dir + "/" + "index";
    SplitAfterSlash(dir, "index");
  }

  /** A docname whose last segment is `index` is `index` or ends in `/index`. */
  lemma IndexTail(docname: string)
    requires Split(docname).1 == "index"
    ensures docname == "index" || (|docname| >= 6 && docname[|docname| - 6..] == "/index")
  {
    var i := LastSlash(docname) + 1;
    assert docname[i..] == "index";
    if i > 0 {
      assert docname[|docname| - 6..] == [docname[i - 1]] + docname[i..];
    } else {
      assert docname == docname[i..];
    }
  }

  /** The last segment of a docname is `index` exactly when it is `index` or ends in `/index`. */
  lemma {:induction false} LeafIsIndex(docname: string)
    ensures Split(docname).1 == "index" <==>
      docname == "index" || (|docname| >= 6 && docname[|docname| - 6..] == "/index")
  {
    if docname == "index" {
      SplitNoSlash(docname);
    } else if |docname| >= 6 && docname[|docname| - 6..] == "/index" {
      SlashIndexTail(docname);
    } else if Split(docname).1 == "index" {
      IndexTail(docname);
    }
  }

  /** A directory's index page contributes the directory itself. */
  lemma IndexPageSuffix(dir: string)
    requires dir != [] && !EndsWithSlash(dir)
    ensures Suffix(dir + "/index") == dir
  {
    var p := dir + "/" + "index";
    assert dir + "/index" == p;
    SplitAfterSlash(dir, "index");
    assert Split(p) == (dir, "index");
  }

  /** The root index page contributes nothing. */
  lemma RootIndexSuffix()
    ensures Suffix("index") == ""
  {
    SplitNoSlash("index");
  }

  /** Any page whose last segment is not `index` contributes its whole name. */
  lemma OtherPageSuffix(docname: string)
    requires Split(docname).1 != "index"
    ensures Suffix(docname) == docname
  {
  }

  /** With a slash-terminated base, the identifier is the base followed by the suffix, less one trailing slash. */
  lemma SlashedBase(contentIdBase: string, docname: string)
    requires EndsWithSlash(contentIdBase) && !StartsWithSlash(Suffix(docname))
    ensures DeriveContentId(contentIdBase, docname) == DropTrailingSlash(contentIdBase + Suffix(docname))
  {
  }

  lemma GuideIndexExample()
    ensures DeriveContentId("https://x/y/", "guide/index") == "https://x/y/guide"
  {
    IndexPageSuffix("guide");
    assert "guide/index" == "guide" + "/index";
  }

  lemma RootIndexExample()
    ensures DeriveContentId("https://x/y/", "index") == "https://x/y"
  {
    RootIndexSuffix();
  }

  /** Only one trailing slash is removed: a docname ending in `//` keeps one. */
  lemma OneSlashStripped()
    ensures DeriveContentId("b/", "a//") == "b/a/"
  {
    var d := "a//";
    assert LastSlash(d) == 2;
    assert Split(d).1 == "";
    assert Suffix(d) == d;
    var joined := Join("b/", d);
    assert joined == "b/" + d;
    assert EndsWithSlash(joined);
  }

  predicate EndsWithOneSlash(s: string)
  {
    EndsWithSlash(s) && !(|s| >= 2 && s[|s| - 2] == '/')
  }

  /**
   * For a base ending in a single slash and a relative docname that does not
   * end in a slash, the identifier never ends in a slash.
   */
  lemma {:induction false} NoTrailingSlash(contentIdBase: string, docname: string)
    requires EndsWithOneSlash(contentIdBase)
    requires !StartsWithSlash(docname) && !EndsWithSlash(docname)
    ensures !EndsWithSlash(DeriveContentId(contentIdBase, docname))
  {
    var (dirname, basename) := Split(docname);
    var suffix := Suffix(docname);
    if basename == "index" {
      var i := LastSlash(docname) + 1;
      var head := docname[..i];
      if head != [] {
        assert !AllSlashes(head) by { assert head[0] == docname[0]; }
        var r := RStripSlashes(head);
        assert r != [];
        assert r[0] == head[0];
        assert suffix == r;
      } else {
        assert suffix == [];
      }
    }
    var joined := Join(contentIdBase, suffix);
    if suffix == [] {
      assert joined == contentIdBase;
    } else {
      assert joined == contentIdBase + suffix;
      assert joined[|joined| - 1] == suffix[|suffix| - 1];
    }
  }
}
