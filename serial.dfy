/**
 * The older serial builder: `handle_page` adds the deconst keys to the page
 * context Sphinx renders, and `dump_context` turns that context into an
 * envelope dictionary and writes it, under the content store's file name
 * when the build does not submit.
 */
module Serial {
  import opened Wrappers
  import opened JsonValue
  import opened EnvelopeRules
  import Paths
  import ContentId
  import Percent
  import opened Envelopes

  /** What `dump_context` and `handle_page` can raise. */
  datatype Error =
    | KeyError(key: string)  // a missing dictionary key
    | IndexError             // no file matched the page's source glob
    | ValueError             // `relpath` of an empty path
    | TypeError              // `path.join` with an unset content-ID base or envelope directory

  /**
   * What the builder reads from the deconst configuration, the Sphinx
   * configuration and the Sphinx environment's per-page metadata.
   * `githubUrl` is `None` when the configuration has no such attribute.
   */
  datatype Config = Config(
    repoMeta: map<string, string>,
    gitRoot: Option<string>,
    githubUrl: Option<string>,
    githubBranch: string,
    contentIdBase: Option<string>,
    envelopeDir: Option<string>,
    defaultLayout: Option<string>,
    defaultUnsearchable: Setting,
    globalCategories: Option<seq<string>>,
    metadata: map<string, map<string, string>>)

  /**
   * The page context as a value. `prepared` records whether `handle_page`
   * has added the four `deconst_*` keys; until then they do not exist.
   */
  datatype Context = Context(
    body: string,
    title: Option<string>,
    meta: map<string, string>,
    currentPageName: string,
    next: Option<map<string, string>>,
    prev: Option<map<string, string>>,
    displayToc: bool,
    toc: string,
    prepared: bool,
    layoutKey: Option<string>,
    deconstTitle: Option<string>,
    categories: Option<string>,
    unsearchable: Setting)

  /** One envelope handed to the JSON serializer, with the file it goes to. */
  datatype Written = Written(path: string, envelope: map<Field, Json>)

  // ---------------------------------------------------------------------------
  // The envelope dictionary

  /** A string that may be `None`, as JSON. */
  function OptJson(s: Option<string>): (j: Json)
    ensures s.None? <==> j == JNull
    ensures s.Some? ==> j == JStr(s.value)
  {
    if s.Some? then JStr(s.value) else JNull
  }

  /** Python truthiness of `context.get('next')`: present and not an empty dictionary. */
  predicate NavTruthy(n: Option<map<string, string>>)
  {
    n.Some? && n.value != map[]
  }

  /** The lookups of a truthy navigation entry: `n['link']` before `n['title']`. */
  function NavCheck(n: Option<map<string, string>>): (r: Outcome<Error>)
    ensures r.Pass? <==> !NavTruthy(n) || ("link" in n.value && "title" in n.value)
    ensures r.Fail? && "link" !in n.value ==> r.error == Error.KeyError("link")
    ensures r.Fail? && "link" in n.value ==> r.error == Error.KeyError("title")
  {
    if !NavTruthy(n) then Pass
    else if "link" !in n.value then Fail(Error.KeyError("link"))
    else if "title" !in n.value then Fail(Error.KeyError("title"))
    else Pass
  }

  /** A navigation entry as the envelope stores it: its `link` under `url`, and its `title`. */
  function NavJson(n: map<string, string>): Json
    requires "link" in n && "title" in n
  {
    JDict(map["url" := JStr(n["link"]), "title" := JStr(n["title"])])
  }

  /** Whether the builder writes an edit link: a git root is set and the configuration names a GitHub URL. */
  predicate LinksEdits(config: Config)
  {
    config.gitRoot.Some? && config.githubUrl.Some?
  }

  /**
   * The `github_edit_url` entry: `None` when the builder writes none, the
   * error when no source file matched or the first match is empty, and
   * otherwise the GitHub edit URL of the first match, relative to the git
   * root. `sourceFiles` are the matches of `<cwd>/<current page name>.*`.
   */
  function EditUrlEntry(config: Config, cwd: string, sourceFiles: seq<string>): (r: Result<Option<string>, Error>)
    ensures r.Success? && r.value.None? <==> !LinksEdits(config)
    ensures r == Failure(IndexError) <==> LinksEdits(config) && sourceFiles == []
    ensures r == Failure(ValueError) <==> LinksEdits(config) && sourceFiles != [] && sourceFiles[0] == ""
  {
    if !LinksEdits(config) then Success(None)
    else if sourceFiles == [] then Failure(IndexError)
    else
      var rel := Paths.RelPath(cwd, sourceFiles[0], config.gitRoot.value);
      if rel.None? then Failure(ValueError)
      else Success(Some(EditUrl(config.githubUrl.value, config.githubBranch, rel.value)))
  }

  /**
   * A source file directly inside a one-component git root is linked by its
   * own name: the edit URL ends in the file name, whatever the working
   * directory.
   */
  lemma EditUrlOfFileInRoot(config: Config, cwd: string, root: string, name: string, others: seq<string>)
    requires LinksEdits(config) && config.gitRoot == Some(root)
    requires Paths.StartsWithSlash(cwd)
    requires Paths.Ordinary(root) && Paths.HasNoSlash(root) && Paths.Ordinary(name) && Paths.HasNoSlash(name)
    ensures EditUrlEntry(config, cwd, [root + "/" + name] + others) ==
            Success(Some(EditUrl(config.githubUrl.value, config.githubBranch, name)))
  {
    Paths.RelPathInside(cwd, root, name);
  }

  /**
   * The first error `dump_context` raises before it writes anything: the
   * source-file lookup, then the first `deconst_*` key, then the `next`
   * entry, then the `prev` entry.
   */
  function DumpError(config: Config, c: Context, cwd: string, sourceFiles: seq<string>): Option<Error>
  {
    var edit := EditUrlEntry(config, cwd, sourceFiles);
    if edit.Failure? then Some(edit.error) else ContextError(c)
  }

  /** The errors raised while the envelope's keys are set: a missing `deconst_*` key, then `next`, then `prev`. */
  function ContextError(c: Context): Option<Error>
  {
    if !c.prepared then Some(Error.KeyError("deconst_title"))
    else if NavCheck(c.next).Fail? then Some(NavCheck(c.next).error)
    else if NavCheck(c.prev).Fail? then Some(NavCheck(c.prev).error)
    else None
  }

  /** The repository metadata updated with the page's, plus the edit link when there is one. */
  function PageMeta(repoMeta: map<string, string>, page: map<string, string>, editUrl: Option<string>)
    : (m: map<string, string>)
    ensures editUrl.None? ==> m == MergeMeta(repoMeta, page)
    ensures editUrl.Some? ==> m == MergeMeta(repoMeta, page)["github_edit_url" := editUrl.value]
  {
    var merged := MergeMeta(repoMeta, page);
    if editUrl.Some? then merged["github_edit_url" := editUrl.value] else merged
  }

  /** `unsearchable` for a set context value: whether it is `'true'` or `True`. */
  function UnsearchableJson(v: Setting): Option<Json>
  {
    if v.Unset? then None else Some(JBool(Unsearchable(v).value))
  }

  function CategoriesJson(cats: Option<seq<string>>): Option<Json>
  {
    if cats.Some? then Some(StrList(cats.value)) else None
  }

  /** A truthy navigation entry with both keys, as stored. */
  function NavEntry(n: Option<map<string, string>>): Option<Json>
  {
    if NavTruthy(n) && "link" in n.value && "title" in n.value then Some(NavJson(n.value)) else None
  }

  /**
   * What the envelope of context `c` holds under `k`, given the merged
   * metadata `meta` and the categories `cats`; `None` for a key it lacks.
   */
  function EnvelopeEntry(c: Context, meta: map<string, string>, cats: Option<seq<string>>, k: Field): Option<Json>
  {
    match k
    case BodyField => Some(JStr(c.body))
    case TitleField => Some(OptJson(c.deconstTitle))
    case LayoutKeyField => Some(OptJson(c.layoutKey))
    case MetaField => Some(StrDict(meta))
    case UnsearchableField => UnsearchableJson(c.unsearchable)
    case CategoriesField => CategoriesJson(cats)
    case NextField => NavEntry(c.next)
    case PreviousField => NavEntry(c.prev)
    case TocField => if c.displayToc then Some(JStr(c.toc)) else None
    case AssetOffsetsField => None
    case AddendaField => None
  }

  /** `d` has key `k` exactly when there is a value `v` for it, and then holds `v` there. */
  predicate Holds(d: map<Field, Json>, k: Field, v: Option<Json>)
  {
    (k in d <==> v.Some?) && (v.Some? ==> d[k] == v.value)
  }

  /** The envelope `dump_context` writes for context `c`: every key holds its entry. */
  predicate EnvelopeShape(d: map<Field, Json>, c: Context, meta: map<string, string>, cats: Option<seq<string>>)
  {
    forall k :: Holds(d, k, EnvelopeEntry(c, meta, cats, k))
  }

  /**
   * What the envelope holds: `body`, `title`, `layout_key` and `meta`
   * always, `null` standing for an unset title or layout; `unsearchable`
   * only when the context's value is set, true exactly for `'true'` or
   * `True`; `categories` only when there are categories; `next` and
   * `previous` only for truthy entries, as their link and title; `toc` only
   * when the context displays one; nothing else.
   */
  lemma EnvelopeKeysPresent(d: map<Field, Json>, c: Context, meta: map<string, string>, cats: Option<seq<string>>)
    requires EnvelopeShape(d, c, meta, cats)
    requires NavCheck(c.next).Pass? && NavCheck(c.prev).Pass?
    ensures BodyField in d && d[BodyField] == JStr(c.body)
    ensures TitleField in d && (d[TitleField] == JNull <==> c.deconstTitle.None?)
    ensures LayoutKeyField in d && (d[LayoutKeyField] == JNull <==> c.layoutKey.None?)
    ensures MetaField in d && d[MetaField] == StrDict(meta)
    ensures UnsearchableField in d <==> !c.unsearchable.Unset?
    ensures UnsearchableField in d ==>
      (d[UnsearchableField] == JBool(true) <==> c.unsearchable == Text("true") || c.unsearchable == Flag(true))
    ensures CategoriesField in d <==> cats.Some?
    ensures NextField in d <==> NavTruthy(c.next)
    ensures NextField in d ==> d[NextField] == JDict(map["url" := JStr(c.next.value["link"]), "title" := JStr(c.next.value["title"])])
    ensures PreviousField in d <==> NavTruthy(c.prev)
    ensures TocField in d <==> c.displayToc
    ensures AssetOffsetsField !in d && AddendaField !in d
  {
    assert Holds(d, BodyField, EnvelopeEntry(c, meta, cats, BodyField));
    assert Holds(d, TitleField, EnvelopeEntry(c, meta, cats, TitleField));
    assert Holds(d, LayoutKeyField, EnvelopeEntry(c, meta, cats, LayoutKeyField));
    assert Holds(d, MetaField, EnvelopeEntry(c, meta, cats, MetaField));
    assert Holds(d, UnsearchableField, EnvelopeEntry(c, meta, cats, UnsearchableField));
    assert Holds(d, CategoriesField, EnvelopeEntry(c, meta, cats, CategoriesField));
    assert Holds(d, NextField, EnvelopeEntry(c, meta, cats, NextField));
    assert Holds(d, PreviousField, EnvelopeEntry(c, meta, cats, PreviousField));
    assert Holds(d, TocField, EnvelopeEntry(c, meta, cats, TocField));
    assert Holds(d, AssetOffsetsField, EnvelopeEntry(c, meta, cats, AssetOffsetsField));
    assert Holds(d, AddendaField, EnvelopeEntry(c, meta, cats, AddendaField));
  }

  /** The shape leaves no freedom: at most one envelope has it. */
  lemma EnvelopeShapeUnique(d: map<Field, Json>, e: map<Field, Json>, c: Context, meta: map<string, string>,
                            cats: Option<seq<string>>)
    requires EnvelopeShape(d, c, meta, cats) && EnvelopeShape(e, c, meta, cats)
    ensures d == e
  {
    forall k | k in d ensures k in e && d[k] == e[k] {
      assert Holds(d, k, EnvelopeEntry(c, meta, cats, k));
      assert Holds(e, k, EnvelopeEntry(c, meta, cats, k));
    }
    forall k | k in e ensures k in d {
      assert Holds(e, k, EnvelopeEntry(c, meta, cats, k));
    }
  }

  /** When `dump_context` sets each key: the first four together, then the others one by one. */
  function Stage(k: Field): nat
  {
    match k
    case BodyField => 0
    case TitleField => 0
    case LayoutKeyField => 0
    case MetaField => 0
    case UnsearchableField => 1
    case CategoriesField => 2
    case NextField => 3
    case PreviousField => 4
    case TocField => 5
    case AssetOffsetsField => 6
    case AddendaField => 6
  }

  /** `d` holds exactly the entries of the keys set before stage `n`. */
  ghost predicate Filled(d: map<Field, Json>, c: Context, meta: map<string, string>, cats: Option<seq<string>>, n: nat)
  {
    forall k :: Holds(d, k, if Stage(k) < n then EnvelopeEntry(c, meta, cats, k) else None)
  }

  /** The four keys the envelope starts with. */
  lemma FilledStart(d: map<Field, Json>, c: Context, meta: map<string, string>, cats: Option<seq<string>>)
    requires d == map[BodyField := JStr(c.body), TitleField := OptJson(c.deconstTitle),
                       LayoutKeyField := OptJson(c.layoutKey), MetaField := StrDict(meta)]
    ensures Filled(d, c, meta, cats, 1)
  {
  }

  /** Setting the key of stage `n` to its entry, when it has one. */
  lemma FilledStep(d: map<Field, Json>, e: map<Field, Json>, c: Context, meta: map<string, string>,
                   cats: Option<seq<string>>, k: Field)
    requires 1 <= Stage(k) < 6 && Filled(d, c, meta, cats, Stage(k))
    requires e == Put(d, k, EnvelopeEntry(c, meta, cats, k))
    ensures Filled(e, c, meta, cats, Stage(k) + 1)
  {
  }

  /** Once every stage is done the envelope has its shape. */
  lemma FilledAll(d: map<Field, Json>, c: Context, meta: map<string, string>, cats: Option<seq<string>>)
    requires Filled(d, c, meta, cats, 6)
    ensures EnvelopeShape(d, c, meta, cats)
  {
    forall k ensures Holds(d, k, EnvelopeEntry(c, meta, cats, k)) {
      assert Holds(d, k, if Stage(k) < 6 then EnvelopeEntry(c, meta, cats, k) else None);
    }
  }

  /** The list `dump_context` collects, page categories first, is deduplicated into the categories value. */
  lemma CategoriesBuilt(pageCats: Option<string>, globalCats: Option<seq<string>>, cats: seq<string>)
    requires pageCats.Some? || globalCats.Some?
    requires cats == (if pageCats.Some? then [] + SplitCategories(pageCats.value) else []) + globalCats.GetOr([])
    ensures Categories(pageCats, globalCats) == Some(Dedup(cats))
  {
    if pageCats.Some? {
      assert [] + SplitCategories(pageCats.value) == SplitCategories(pageCats.value);
    }
  }

  // ---------------------------------------------------------------------------
  // The file name

  /** The inline suffix rule: the directory for an `index` page, else directory and leaf joined again. */
  function SerialSuffix(pageName: string): string
  {
    var (dirname, basename) := Paths.Split(pageName);
    if basename == "index" then dirname else Paths.Join(dirname, basename)
  }

  /** The content ID of a page: base and suffix joined, one trailing slash dropped. */
  function SerialContentId(contentIdBase: string, pageName: string): string
  {
    Paths.DropTrailingSlash(Paths.Join(contentIdBase, SerialSuffix(pageName)))
  }

  /**
   * Where the envelope of a page goes when the build does not submit: the
   * quoted content ID plus `.json` inside the envelope directory; an unset
   * base or directory makes `path.join` raise.
   */
  function EnvelopePath(config: Config, pageName: string): (r: Result<string, Error>)
    ensures r.Failure? <==> config.contentIdBase.None? || config.envelopeDir.None?
    ensures r.Failure? ==> r.error == Error.TypeError
    ensures r.Success? ==>
      Paths.Split(r.value).1 == Percent.Quote(SerialContentId(config.contentIdBase.value, pageName)) + ".json"
  {
    if config.contentIdBase.None? || config.envelopeDir.None? then Failure(Error.TypeError)
    else Success(Envelopes.SerializationPath(config.envelopeDir.value,
                                             SerialContentId(config.contentIdBase.value, pageName)))
  }

  /** A name in which no slash follows another, as Sphinx's document names are. */
  predicate NoDoubleSlash(p: string)
  {
    forall i :: 0 < i < |p| && p[i] == '/' ==> p[i - 1] != '/'
  }

  /** Splitting a name and joining the parts again gives the name back when no slash follows another. */
  lemma {:induction false} JoinSplit(p: string)
    requires NoDoubleSlash(p)
    ensures Paths.Join(Paths.Split(p).0, Paths.Split(p).1) == p
  {
    var i := Paths.LastSlash(p) + 1;
    var head, tail := p[..i], p[i..];
    assert Paths.Split(p).1 == tail;
    assert p == head + tail;
    if head != [] && !Paths.AllSlashes(head) {
      assert i == 1 ==> Paths.AllSlashes(head);
      assert p[i - 1] == '/' && p[i - 2] != '/';
      var dir := head[..i - 1];
      assert Paths.EndsWithSlash(head) && !Paths.EndsWithSlash(dir);
      assert Paths.RStripSlashes(head) == dir;
      assert Paths.Split(p).0 == dir;
      assert head == dir + "/";
    }
  }

  /** For the names Sphinx produces, the inline rule is `derive_content_id`'s. */
  lemma SerialSuffixAgrees(pageName: string)
    requires NoDoubleSlash(pageName)
    ensures SerialSuffix(pageName) == ContentId.Suffix(pageName)
  {
    JoinSplit(pageName);
  }

  /** A doubled slash is where the two rules part: the inline rule collapses it. */
  lemma SerialSuffixCollapses()
    ensures SerialSuffix("a//b") == "a/b"
    ensures ContentId.Suffix("a//b") == "a//b"
  {
    SplitDoubleSlash();
  }

  /** `os.path.split("a//b")` drops both slashes between the parts. */
  lemma SplitDoubleSlash()
    ensures Paths.Split("a//b") == ("a", "b")
  {
    var p := "a//b";
    assert Paths.LastSlash(p[..3]) == 2;
    assert Paths.LastSlash(p) == 2;
    assert p[..3] == "a//" && p[3..] == "b";
    assert "a//"[..2] == "a/" && "a/"[..1] == "a";
    assert Paths.RStripSlashes("a//") == "a";
    assert !Paths.AllSlashes("a//");
  }

  /**
   * When the build does not submit, the serial builder writes a page's
   * envelope to the same file as the `Envelope` class does.
   */
  lemma EnvelopePathAgrees(config: Config, pageName: string)
    requires config.contentIdBase.Some? && config.envelopeDir.Some? && NoDoubleSlash(pageName)
    ensures EnvelopePath(config, pageName) ==
      Success(Envelopes.SerializationPath(config.envelopeDir.value,
                                          ContentId.DeriveContentId(config.contentIdBase.value, pageName)))
  {
    var base, dir := config.contentIdBase.value, config.envelopeDir.value;
    SerialContentIdAgrees(base, pageName);
    assert EnvelopePath(config, pageName) == Success(Envelopes.SerializationPath(dir, SerialContentId(base, pageName)));
  }

  /** The serial builder's content ID is `derive_content_id`'s for the names Sphinx produces. */
  lemma SerialContentIdAgrees(contentIdBase: string, pageName: string)
    requires NoDoubleSlash(pageName)
    ensures SerialContentId(contentIdBase, pageName) == ContentId.DeriveContentId(contentIdBase, pageName)
  {
    SerialSuffixAgrees(pageName);
  }

  // ---------------------------------------------------------------------------
  // handle_page

  /** The context after `handle_page` has read the page's metadata `page`. */
  function Prepared(c: Context, page: map<string, string>, config: Config): Context
  {
    c.(prepared := true,
       layoutKey := LayoutKey(page, config.defaultLayout),
       deconstTitle := Title(c.title, page),
       categories := Get(page, CategoriesKey),
       unsearchable := PageSetting(page, UnsearchableKey, config.defaultUnsearchable))
  }

  /**
   * What the metadata of a page decides in its envelope: its own title and
   * layout, falling back to the context title and the configured layout;
   * `unsearchable` present when the page or the configuration sets it and
   * true exactly for `'true'`; `categories` present when the page or the
   * repository lists some.
   */
  lemma PreparedEnvelope(d: map<Field, Json>, c: Context, page: map<string, string>, config: Config,
                         meta: map<string, string>)
    requires EnvelopeShape(d, Prepared(c, page, config), meta,
                           Categories(Get(page, CategoriesKey), config.globalCategories))
    ensures TitleField in d && LayoutKeyField in d
    ensures d[TitleField] == (if TitleKey in page then JStr(page[TitleKey]) else OptJson(c.title))
    ensures d[LayoutKeyField] == (if LayoutKeyName in page then JStr(page[LayoutKeyName]) else OptJson(config.defaultLayout))
    ensures UnsearchableField in d <==> UnsearchableKey in page || !config.defaultUnsearchable.Unset?
    ensures UnsearchableKey in page ==> d[UnsearchableField] == JBool(page[UnsearchableKey] == "true")
    ensures CategoriesField in d <==> CategoriesKey in page || config.globalCategories.Some?
  {
    var p, cats := Prepared(c, page, config), Categories(Get(page, CategoriesKey), config.globalCategories);
    assert Holds(d, TitleField, EnvelopeEntry(p, meta, cats, TitleField));
    assert Holds(d, LayoutKeyField, EnvelopeEntry(p, meta, cats, LayoutKeyField));
    assert Holds(d, UnsearchableField, EnvelopeEntry(p, meta, cats, UnsearchableField));
    assert Holds(d, CategoriesField, EnvelopeEntry(p, meta, cats, CategoriesField));
    PageUnsearchable(page, config.defaultUnsearchable);
  }

  // ---------------------------------------------------------------------------
  // The context and the builder

  /** The dictionary Sphinx renders a page from, with the keys the builder reads and writes. */
  class PageContext {
    var body: string
    var title: Option<string>
    var meta: map<string, string>
    var currentPageName: string
    var next: Option<map<string, string>>
    var prev: Option<map<string, string>>
    var displayToc: bool
    var toc: string
    var prepared: bool
    var deconstLayoutKey: Option<string>
    var deconstTitle: Option<string>
    var deconstCategories: Option<string>
    var deconstUnsearchable: Setting

    function View(): Context
      reads this
    {
      Context(body, title, meta, currentPageName, next, prev, displayToc, toc, prepared,
              deconstLayoutKey, deconstTitle, deconstCategories, deconstUnsearchable)
    }

    /** The context as Sphinx builds it, before any `deconst_*` key exists. */
    constructor (body: string, title: Option<string>, meta: map<string, string>, currentPageName: string,
                 next: Option<map<string, string>>, prev: Option<map<string, string>>,
                 displayToc: bool, toc: string)
      ensures View() == Context(body, title, meta, currentPageName, next, prev, displayToc, toc, false,
                                None, None, None, Unset)
    {
      this.body := body;
      this.title := title;
      this.meta := meta;
      this.currentPageName := currentPageName;
      this.next := next;
      this.prev := prev;
      this.displayToc := displayToc;
      this.toc := toc;
      prepared := false;
      deconstLayoutKey := None;
      deconstTitle := None;
      deconstCategories := None;
      deconstUnsearchable := Unset;
    }
  }

  class SerialBuilder {
    const config: Config
    /** `not skip_submit_reasons()`: envelopes then go where Sphinx names them. */
    const shouldSubmit: bool
    /** Every envelope handed to the serializer, in order. */
    var written: seq<Written>

    constructor (config: Config, shouldSubmit: bool)
      ensures this.config == config && this.shouldSubmit == shouldSubmit && written == []
    {
      this.config := config;
      this.shouldSubmit := shouldSubmit;
      written := [];
    }

    /**
     * `handle_page`: a page without metadata is a `KeyError` that leaves the
     * context alone; otherwise the four `deconst_*` keys are set from the
     * page's metadata with their fallbacks and nothing else changes.
     */
    method HandlePage(pageName: string, ctx: PageContext) returns (r: Outcome<Error>)
      modifies ctx
      ensures pageName !in config.metadata ==> r == Fail(Error.KeyError(pageName)) && ctx.View() == old(ctx.View())
      ensures pageName in config.metadata ==>
        r.Pass? && ctx.View() == Prepared(old(ctx.View()), config.metadata[pageName], config)
    {
      if pageName !in config.metadata {
        return Fail(Error.KeyError(pageName));
      }
      var meta := config.metadata[pageName];
      ctx.deconstLayoutKey := if LayoutKeyName in meta then Some(meta[LayoutKeyName]) else config.defaultLayout;
      ctx.deconstTitle := if TitleKey in meta then Some(meta[TitleKey]) else ctx.title;
      ctx.deconstCategories := if CategoriesKey in meta then Some(meta[CategoriesKey]) else None;
      ctx.deconstUnsearchable := if UnsearchableKey in meta then Text(meta[UnsearchableKey]) else config.defaultUnsearchable;
      ctx.prepared := true;
      r := Pass;
    }

    /**
     * The metadata `dump_context` writes: the repository's updated with the
     * page's, plus the edit link of the page's source file when the builder
     * writes one, or the error raised while finding that file.
     */
    method MergedMeta(ctx: PageContext, cwd: string, sourceFiles: seq<string>) returns (r: Result<map<string, string>, Error>)
      ensures var edit := EditUrlEntry(config, cwd, sourceFiles);
        && (edit.Failure? ==> r == Failure(edit.error))
        && (edit.Success? ==> r == Success(PageMeta(config.repoMeta, ctx.meta, edit.value)))
    {
      var meta := config.repoMeta;
      meta := meta + ctx.meta;
      if config.gitRoot.Some? && config.githubUrl.Some? {
        if |sourceFiles| == 0 {
          return Failure(IndexError);
        }
        var rel := Paths.RelPath(cwd, sourceFiles[0], config.gitRoot.value);
        if rel.None? {
          return Failure(ValueError);
        }
        meta := meta["github_edit_url" := EditUrl(config.githubUrl.value, config.githubBranch, rel.value)];
      }
      r := Success(meta);
    }

    /**
     * The keys `dump_context` sets before the navigation links: `body`,
     * `title`, `layout_key` and `meta`, then `unsearchable` when the context
     * sets it, then `categories` when there are any.
     */
    method LeadingEntries(ctx: PageContext, meta: map<string, string>) returns (envelope: map<Field, Json>)
      ensures Filled(envelope, ctx.View(), meta, Categories(ctx.deconstCategories, config.globalCategories), 3)
    {
      ghost var c, cats := ctx.View(), Categories(ctx.deconstCategories, config.globalCategories);
      envelope := map[BodyField := JStr(ctx.body), TitleField := OptJson(ctx.deconstTitle),
                      LayoutKeyField := OptJson(ctx.deconstLayoutKey), MetaField := StrDict(meta)];
      FilledStart(envelope, c, meta, cats);
      ghost var before := envelope;

      if ctx.deconstUnsearchable != Unset {
        var unsearchable := ctx.deconstUnsearchable == Text("true") || ctx.deconstUnsearchable == Flag(true);
        envelope := envelope[UnsearchableField := JBool(unsearchable)];
      }
      FilledStep(before, envelope, c, meta, cats, UnsearchableField);
      before := envelope;

      var pageCats, globalCats := ctx.deconstCategories, config.globalCategories;
      if pageCats.Some? || globalCats.Some? {
        var collected: seq<string> := [];
        if pageCats.Some? {
          collected := collected + SplitCategories(pageCats.value);
        }
        collected := collected + globalCats.GetOr([]);
        CategoriesBuilt(pageCats, globalCats, collected);
        envelope := envelope[CategoriesField := StrList(Dedup(collected))];
      }
      FilledStep(before, envelope, c, meta, cats, CategoriesField);
    }

    /**
     * The envelope half of `dump_context`: given the merged metadata, set the
     * envelope's keys one by one. It fails with the first error the source
     * raises, and otherwise returns the one envelope of the page's shape.
     */
    method BuildEnvelope(ctx: PageContext, meta: map<string, string>) returns (r: Result<map<Field, Json>, Error>)
      ensures var err := ContextError(ctx.View());
        (r.Failure? <==> err.Some?) && (r.Failure? ==> r.error == err.value)
      ensures r.Success? ==>
        EnvelopeShape(r.value, ctx.View(), meta, Categories(ctx.deconstCategories, config.globalCategories))
    {
      if !ctx.prepared {
        return Failure(Error.KeyError("deconst_title"));
      }
      ghost var c, cats := ctx.View(), Categories(ctx.deconstCategories, config.globalCategories);
      var envelope := LeadingEntries(ctx, meta);
      ghost var before := envelope;

      var next := SetNavigation(envelope, NextField, ctx.next);
      if next.Failure? {
        return Failure(next.error);
      }
      envelope := next.value;
      FilledStep(before, envelope, c, meta, cats, NextField);
      before := envelope;

      var previous := SetNavigation(envelope, PreviousField, ctx.prev);
      if previous.Failure? {
        return Failure(previous.error);
      }
      envelope := previous.value;
      FilledStep(before, envelope, c, meta, cats, PreviousField);
      before := envelope;

      if ctx.displayToc {
        envelope := envelope[TocField := JStr(ctx.toc)];
      }
      FilledStep(before, envelope, c, meta, cats, TocField);
      FilledAll(envelope, c, meta, cats);
      r := Success(envelope);
    }

    /**
     * `if n: envelope[key] = {"url": n["link"], "title": n["title"]}`, as
     * written out for `next` and for `prev`: a truthy entry without `link` or
     * `title` raises, in that order.
     */
    method SetNavigation(envelope: map<Field, Json>, key: Field, n: Option<map<string, string>>)
      returns (r: Result<map<Field, Json>, Error>)
      ensures NavCheck(n).Fail? ==> r == Failure(NavCheck(n).error)
      ensures NavCheck(n).Pass? ==> r == Success(Put(envelope, key, NavEntry(n)))
    {
      r := Success(envelope);
      if NavTruthy(n) {
        var entry := n.value;
        if "link" !in entry {
          return Failure(Error.KeyError("link"));
        }
        if "title" !in entry {
          return Failure(Error.KeyError("title"));
        }
        r := Success(envelope[key := JDict(map["url" := JStr(entry["link"]), "title" := JStr(entry["title"])])]);
      }
    }

    /**
     * The content ID `dump_context` computes inline for the current page:
     * split the name, keep the directory of an `index` page or join the two
     * parts again, join the result to the base and drop one trailing slash.
     */
    static method PageContentId(contentIdBase: string, pageName: string) returns (contentId: string)
      ensures contentId == SerialContentId(contentIdBase, pageName)
    {
      var (dirname, basename) := Paths.Split(pageName);
      var suffix := if basename == "index" then dirname else Paths.Join(dirname, basename);
      assert suffix == SerialSuffix(pageName);
      contentId := Paths.Join(contentIdBase, suffix);
      if Paths.EndsWithSlash(contentId) {
        contentId := contentId[..|contentId| - 1];
      }
    }

    /**
     * The file-name half of `dump_context` when the build does not submit:
     * the content ID of the current page, quoted, plus `.json`, inside the
     * envelope directory.
     */
    method EnvelopeFilename(pageName: string) returns (r: Result<string, Error>)
      ensures r == EnvelopePath(config, pageName)
    {
      if config.contentIdBase.None? {
        return Failure(Error.TypeError);
      }
      var contentId := PageContentId(config.contentIdBase.value, pageName);
      var envelopeFilename := Percent.Quote(contentId) + ".json";
      if config.envelopeDir.None? {
        return Failure(Error.TypeError);
      }
      r := Success(Paths.Join(config.envelopeDir.value, envelopeFilename));
      assert r.value == Envelopes.SerializationPath(config.envelopeDir.value, contentId);
    }

    /**
     * `dump_context`: build the envelope, then write it under `filename`
     * when submitting, or under the content-ID file name in the envelope
     * directory otherwise. Nothing is written when an error is raised.
     */
    method DumpContext(ctx: PageContext, filename: string, cwd: string, sourceFiles: seq<string>)
      returns (r: Outcome<Error>)
      modifies this`written
      ensures var err := DumpError(config, ctx.View(), cwd, sourceFiles);
        && (err.Some? ==> r == Fail(err.value))
        && (err.None? && !shouldSubmit && EnvelopePath(config, ctx.currentPageName).Failure? ==> r == Fail(Error.TypeError))
        && (err.None? && (shouldSubmit || EnvelopePath(config, ctx.currentPageName).Success?) ==> r.Pass?)
      ensures r.Fail? ==> written == old(written)
      ensures r.Pass? ==>
        && |written| == |old(written)| + 1 && written[..|old(written)|] == old(written)
        && written[|old(written)|].path ==
             (if shouldSubmit then filename else EnvelopePath(config, ctx.currentPageName).value)
        && EnvelopeShape(written[|old(written)|].envelope, ctx.View(),
                         PageMeta(config.repoMeta, ctx.meta, EditUrlEntry(config, cwd, sourceFiles).value),
                         Categories(ctx.deconstCategories, config.globalCategories))
    {
      var meta := MergedMeta(ctx, cwd, sourceFiles);
      if meta.Failure? {
        return Fail(meta.error);
      }
      var envelope := BuildEnvelope(ctx, meta.value);
      if envelope.Failure? {
        return Fail(envelope.error);
      }
      var path := filename;
      if !shouldSubmit {
        var p := EnvelopeFilename(ctx.currentPageName);
        if p.Failure? {
          return Fail(p.error);
        }
        path := p.value;
      }
      written := written + [Written(path, envelope.value)];
      r := Pass;
    }
  }
}
