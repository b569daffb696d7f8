/**
 * The metadata envelope of one rendered page: the record that is serialized
 * as JSON for the content store, its file name, and the payload it writes.
 */
module Envelopes {
  import opened Wrappers
  import opened JsonValue
  import opened EnvelopeRules
  import Paths
  import ContentId
  import Percent

  /** A navigation link as stored in `next` and `previous`. */
  datatype Link = Link(url: string, title: string)

  /**
   * What the envelope raises: a navigation entry lacking a key, or
   * `path.join` given an unset content-ID base or envelope directory.
   */
  datatype Error = KeyError(key: string) | TypeError

  /**
   * What the envelope reads from the deconst configuration (content-ID base,
   * envelope directory, repository metadata, git settings) and from the
   * Sphinx configuration (source suffix, defaults, global categories).
   */
  datatype Settings = Settings(
    contentIdBase: Option<string>,
    envelopeDir: Option<string>,
    repoMeta: map<string, string>,
    gitRoot: Option<string>,
    githubUrl: Option<string>,
    githubBranch: string,
    sourceSuffix: string,
    defaultUnsearchable: Setting,
    defaultLayout: Option<string>,
    globalCategories: Option<seq<string>>)

  /** `_populate_meta` followed by `_populate_git`. */
  function EnvelopeMeta(settings: Settings, docname: string, page: map<string, string>): (m: map<string, string>)
    ensures Truthy(settings.gitRoot) && Truthy(settings.githubUrl) ==>
      m == MergeMeta(settings.repoMeta, page)["github_edit_url" :=
        EditUrl(settings.githubUrl.value, settings.githubBranch, docname + settings.sourceSuffix)]
    ensures !(Truthy(settings.gitRoot) && Truthy(settings.githubUrl)) ==> m == MergeMeta(settings.repoMeta, page)
  {
    var merged := MergeMeta(settings.repoMeta, page);
    if Truthy(settings.gitRoot) && Truthy(settings.githubUrl) then
      merged["github_edit_url" := EditUrl(settings.githubUrl.value, settings.githubBranch, docname + settings.sourceSuffix)]
    else merged
  }

  // ---------------------------------------------------------------------------
  // The serialized form

  /** The fields of an envelope that reach its payload. */
  datatype PayloadFields = PayloadFields(
    body: string,
    title: Option<string>,
    toc: Option<string>,
    unsearchable: Option<bool>,
    layoutKey: Option<string>,
    categories: Option<seq<string>>,
    meta: Option<map<string, string>>,
    assetOffsets: Json,
    next: Option<Link>,
    previous: Option<Link>,
    addenda: Option<map<string, string>>)

  /** The keys a payload can have. */
  datatype Field = BodyField | TitleField | TocField | UnsearchableField | LayoutKeyField
    | CategoriesField | MetaField | AssetOffsetsField | NextField | PreviousField | AddendaField

  const AllFields: set<Field> := {BodyField, TitleField, TocField, UnsearchableField, LayoutKeyField,
    CategoriesField, MetaField, AssetOffsetsField, NextField, PreviousField, AddendaField}

  /** The JSON key each field is written under. */
  function KeyName(k: Field): string
  {
    match k
    case BodyField => "body"
    case TitleField => "title"
    case TocField => "toc"
    case UnsearchableField => "unsearchable"
    case LayoutKeyField => "layout_key"
    case CategoriesField => "categories"
    case MetaField => "meta"
    case AssetOffsetsField => "asset_offsets"
    case NextField => "next"
    case PreviousField => "previous"
    case AddendaField => "addenda"
  }

  /** The field written under a JSON key, if any. */
  function FieldNamed(name: string): Option<Field>
  {
    if name == "body" then Some(BodyField)
    else if name == "title" then Some(TitleField)
    else if name == "toc" then Some(TocField)
    else if name == "unsearchable" then Some(UnsearchableField)
    else if name == "layout_key" then Some(LayoutKeyField)
    else if name == "categories" then Some(CategoriesField)
    else if name == "meta" then Some(MetaField)
    else if name == "asset_offsets" then Some(AssetOffsetsField)
    else if name == "next" then Some(NextField)
    else if name == "previous" then Some(PreviousField)
    else if name == "addenda" then Some(AddendaField)
    else None
  }

  /** Every field's key names that field back, so no two fields share a key. */
  lemma FieldNamedKeyName(k: Field)
    ensures FieldNamed(KeyName(k)) == Some(k)
  {
    match k
    case BodyField =>
    case TitleField =>
    case TocField =>
    case UnsearchableField =>
    case LayoutKeyField =>
    case CategoriesField =>
    case MetaField =>
    case AssetOffsetsField =>
    case NextField =>
    case PreviousField =>
    case AddendaField =>
  }

  lemma KeyNameInjective(a: Field, b: Field)
    ensures KeyName(a) == KeyName(b) <==> a == b
  {
    FieldNamedKeyName(a);
    FieldNamedKeyName(b);
  }

  function LinkJson(l: Link): Json
  {
    JDict(map["url" := JStr(l.url), "title" := JStr(l.title)])
  }

  /** A title or table of contents as written: only when it is a non-empty string. */
  function NonEmpty(s: Option<string>): Option<string>
  {
    if Truthy(s) then s else None
  }

  // What each kind of optional field writes: nothing when it is unset.

  function OptStr(v: Option<string>): Option<Json>
  {
    if v.Some? then Some(JStr(v.value)) else None
  }

  function OptBool(v: Option<bool>): Option<Json>
  {
    if v.Some? then Some(JBool(v.value)) else None
  }

  function OptStrList(v: Option<seq<string>>): Option<Json>
  {
    if v.Some? then Some(StrList(v.value)) else None
  }

  function OptStrDict(v: Option<map<string, string>>): Option<Json>
  {
    if v.Some? then Some(StrDict(v.value)) else None
  }

  function OptLink(v: Option<Link>): Option<Json>
  {
    if v.Some? then Some(LinkJson(v.value)) else None
  }

  /** Asset offsets are written when they are not None. */
  function OptOffsets(j: Json): Option<Json>
  {
    if j != JNull then Some(j) else None
  }

  /**
   * The value `serialization_payload` writes under `k`: `body` always;
   * `title` and `toc` only when non-empty; every other field only when it
   * is set.
   */
  function Entry(f: PayloadFields, k: Field): Option<Json>
  {
    match k
    case BodyField => Some(JStr(f.body))
    case TitleField => OptStr(NonEmpty(f.title))
    case TocField => OptStr(NonEmpty(f.toc))
    case UnsearchableField => OptBool(f.unsearchable)
    case LayoutKeyField => OptStr(f.layoutKey)
    case CategoriesField => OptStrList(f.categories)
    case MetaField => OptStrDict(f.meta)
    case AssetOffsetsField => OptOffsets(f.assetOffsets)
    case NextField => OptLink(f.next)
    case PreviousField => OptLink(f.previous)
    case AddendaField => OptStrDict(f.addenda)
  }

  /** The payload: one entry per field that has a value. */
  function Payload(f: PayloadFields): (p: map<Field, Json>)
    ensures forall k :: k in p <==> Entry(f, k).Some?
    ensures forall k :: k in p ==> p[k] == Entry(f, k).value
  {
    map k | k in AllFields && Entry(f, k).Some? :: Entry(f, k).value
  }

  /** The payload as the JSON object written to disk, keyed by the fields' names. */
  function PayloadObject(p: map<Field, Json>): (obj: map<string, Json>)
    ensures forall k :: k in p <==> KeyName(k) in obj
    ensures forall k :: k in p ==> obj[KeyName(k)] == p[k]
    ensures forall name :: name in obj ==> FieldNamed(name).Some? && FieldNamed(name).value in p
  {
    forall a, b ensures KeyName(a) == KeyName(b) <==> a == b {
      KeyNameInjective(a, b);
    }
    forall k ensures FieldNamed(KeyName(k)) == Some(k) {
      FieldNamedKeyName(k);
    }
    map k | k in p :: KeyName(k) := p[k]
  }

  /** Which keys the payload has, and that none of them holds null. */
  lemma PayloadKeys(f: PayloadFields)
    ensures var p := Payload(f);
      && BodyField in p && p[BodyField] == JStr(f.body)
      && (TitleField in p <==> Truthy(f.title))
      && (TocField in p <==> Truthy(f.toc))
      && (UnsearchableField in p <==> f.unsearchable.Some?)
      && (LayoutKeyField in p <==> f.layoutKey.Some?)
      && (CategoriesField in p <==> f.categories.Some?)
      && (MetaField in p <==> f.meta.Some?)
      && (AssetOffsetsField in p <==> f.assetOffsets != JNull)
      && (NextField in p <==> f.next.Some?)
      && (PreviousField in p <==> f.previous.Some?)
      && (AddendaField in p <==> f.addenda.Some?)
      && (forall k :: k in p ==> p[k] != JNull)
  {
    var p := Payload(f);
    forall k | k in p
      ensures p[k] != JNull
    {
      EntryNotNull(f, k);
    }
  }

  /** No field writes null: an unset field writes nothing at all. */
  lemma EntryNotNull(f: PayloadFields, k: Field)
    ensures Entry(f, k).Some? ==> Entry(f, k).value != JNull
  {
  }

  /** What survives serialization: an empty title or table of contents is dropped. */
  function Canonical(f: PayloadFields): PayloadFields
  {
    f.(title := NonEmpty(f.title), toc := NonEmpty(f.toc))
  }

  // Reading entries back: `Some(None)` when absent, `None` when present but of the wrong shape.

  function ReadStr(p: map<Field, Json>, k: Field): Option<Option<string>>
  {
    if k !in p then Some(None)
    else if p[k].JStr? then Some(Some(p[k].s))
    else None
  }

  function ReadBool(p: map<Field, Json>, k: Field): Option<Option<bool>>
  {
    if k !in p then Some(None)
    else if p[k].JBool? then Some(Some(p[k].b))
    else None
  }

  function ReadStrList(p: map<Field, Json>, k: Field): Option<Option<seq<string>>>
  {
    if k !in p then Some(None)
    else match AsStrList(p[k])
      case Some(xs) => Some(Some(xs))
      case None => None
  }

  function ReadStrDict(p: map<Field, Json>, k: Field): Option<Option<map<string, string>>>
  {
    if k !in p then Some(None)
    else match AsStrDict(p[k])
      case Some(m) => Some(Some(m))
      case None => None
  }

  function AsLink(j: Json): Option<Link>
  {
    if j.JDict? && "url" in j.fields && "title" in j.fields && j.fields["url"].JStr? && j.fields["title"].JStr? then
      Some(Link(j.fields["url"].s, j.fields["title"].s))
    else None
  }

  function ReadLink(p: map<Field, Json>, k: Field): Option<Option<Link>>
  {
    if k !in p then Some(None)
    else match AsLink(p[k])
      case Some(l) => Some(Some(l))
      case None => None
  }

  /** Reading a payload back into envelope fields; `None` when an entry has the wrong shape. */
  function ParsePayload(p: map<Field, Json>): Option<PayloadFields>
  {
    var body := if BodyField in p && p[BodyField].JStr? then Some(p[BodyField].s) else None;
    var title := ReadStr(p, TitleField);
    var toc := ReadStr(p, TocField);
    var unsearchable := ReadBool(p, UnsearchableField);
    var layoutKey := ReadStr(p, LayoutKeyField);
    var categories := ReadStrList(p, CategoriesField);
    var meta := ReadStrDict(p, MetaField);
    var next := ReadLink(p, NextField);
    var previous := ReadLink(p, PreviousField);
    var addenda := ReadStrDict(p, AddendaField);
    var offsets := if AssetOffsetsField in p then p[AssetOffsetsField] else JNull;
    if body.Some? && title.Some? && toc.Some? && unsearchable.Some? && layoutKey.Some?
       && categories.Some? && meta.Some? && next.Some? && previous.Some? && addenda.Some?
    then
      Some(PayloadFields(body.value, title.value, toc.value, unsearchable.value, layoutKey.value,
        categories.value, meta.value, offsets, next.value, previous.value, addenda.value))
    else None
  }

  lemma ReadStrListWritten(p: map<Field, Json>, k: Field, v: Option<seq<string>>)
    requires (k in p <==> v.Some?) && (v.Some? ==> p[k] == StrList(v.value))
    ensures ReadStrList(p, k) == Some(v)
  {
    if v.Some? {
      AsStrListOfStrList(v.value);
    }
  }

  lemma ReadStrDictWritten(p: map<Field, Json>, k: Field, v: Option<map<string, string>>)
    requires (k in p <==> v.Some?) && (v.Some? ==> p[k] == StrDict(v.value))
    ensures ReadStrDict(p, k) == Some(v)
  {
    if v.Some? {
      AsStrDictOfStrDict(v.value);
    }
  }

  /** A payload whose every entry reads back as the field of `c` parses as `c`. */
  lemma ParseEntries(p: map<Field, Json>, c: PayloadFields)
    requires BodyField in p && p[BodyField] == JStr(c.body)
    requires ReadStr(p, TitleField) == Some(c.title) && ReadStr(p, TocField) == Some(c.toc)
    requires ReadBool(p, UnsearchableField) == Some(c.unsearchable)
    requires ReadStr(p, LayoutKeyField) == Some(c.layoutKey)
    requires ReadStrList(p, CategoriesField) == Some(c.categories)
    requires ReadStrDict(p, MetaField) == Some(c.meta) && ReadStrDict(p, AddendaField) == Some(c.addenda)
    requires ReadLink(p, NextField) == Some(c.next) && ReadLink(p, PreviousField) == Some(c.previous)
    requires c.assetOffsets == if AssetOffsetsField in p then p[AssetOffsetsField] else JNull
    ensures ParsePayload(p) == Some(c)
  {
  }

  /** The string and boolean entries of a payload read back as written. */
  lemma ReadScalarsBack(f: PayloadFields)
    ensures var p := Payload(f);
      && ReadStr(p, TitleField) == Some(NonEmpty(f.title))
      && ReadStr(p, TocField) == Some(NonEmpty(f.toc))
      && ReadBool(p, UnsearchableField) == Some(f.unsearchable)
      && ReadStr(p, LayoutKeyField) == Some(f.layoutKey)
  {
    var p := Payload(f);
    assert TitleField in p ==> p[TitleField] == JStr(NonEmpty(f.title).value);
    assert TocField in p ==> p[TocField] == JStr(NonEmpty(f.toc).value);
    assert UnsearchableField in p ==> p[UnsearchableField] == JBool(f.unsearchable.value);
    assert LayoutKeyField in p ==> p[LayoutKeyField] == JStr(f.layoutKey.value);
  }

  /** The list, dictionary and link entries of a payload read back as written. */
  lemma ReadCompoundsBack(f: PayloadFields)
    ensures var p := Payload(f);
      && ReadStrList(p, CategoriesField) == Some(f.categories)
      && ReadStrDict(p, MetaField) == Some(f.meta)
      && ReadStrDict(p, AddendaField) == Some(f.addenda)
      && ReadLink(p, NextField) == Some(f.next)
      && ReadLink(p, PreviousField) == Some(f.previous)
  {
    var p := Payload(f);
    assert Entry(f, CategoriesField) == OptStrList(f.categories);
    ReadStrListWritten(p, CategoriesField, f.categories);
    assert Entry(f, MetaField) == OptStrDict(f.meta);
    ReadStrDictWritten(p, MetaField, f.meta);
    assert Entry(f, AddendaField) == OptStrDict(f.addenda);
    ReadStrDictWritten(p, AddendaField, f.addenda);
    assert NextField in p ==> p[NextField] == LinkJson(f.next.value);
    assert PreviousField in p ==> p[PreviousField] == LinkJson(f.previous.value);
  }

  /** Reading a payload back gives the envelope's fields, less an empty title or table of contents. */
  lemma ParsePayloadRoundTrip(f: PayloadFields)
    ensures ParsePayload(Payload(f)) == Some(Canonical(f))
  {
    var p := Payload(f);
    ReadScalarsBack(f);
    ReadCompoundsBack(f);
    assert Entry(f, AssetOffsetsField) == OptOffsets(f.assetOffsets);
    ParseEntries(p, Canonical(f));
  }

  /** Two envelopes write the same payload exactly when they agree on what survives serialization. */
  lemma PayloadDeterminedByCanonical(f: PayloadFields, g: PayloadFields)
    ensures Payload(f) == Payload(g) <==> Canonical(f) == Canonical(g)
  {
    ParsePayloadRoundTrip(f);
    ParsePayloadRoundTrip(g);
    if Canonical(f) == Canonical(g) {
      PayloadOfCanonical(f);
      PayloadOfCanonical(g);
    }
  }

  lemma PayloadOfCanonical(f: PayloadFields)
    ensures Payload(Canonical(f)) == Payload(f)
  {
    forall k ensures Entry(Canonical(f), k) == Entry(f, k) {
    }
  }

  /** `p` holds exactly the payload entries of `f` whose keys are in `done`. */
  ghost predicate Agrees(p: map<Field, Json>, f: PayloadFields, done: set<Field>)
  {
    forall k :: (k in p <==> k in done && Entry(f, k).Some?) && (k in p ==> p[k] == Entry(f, k).value)
  }

  /** `payload[k] = v` when there is a value `v`; nothing otherwise. */
  function Put(p: map<Field, Json>, k: Field, v: Option<Json>): map<Field, Json>
  {
    if v.Some? then p[k := v.value] else p
  }

  /** Writing the entry of one more field, as `serialization_payload` does for each key. */
  function Step(p: map<Field, Json>, f: PayloadFields, k: Field): map<Field, Json>
  {
    Put(p, k, Entry(f, k))
  }

  lemma AddEntry(p: map<Field, Json>, f: PayloadFields, done: set<Field>, k: Field)
    requires Agrees(p, f, done)
    ensures Agrees(Step(p, f, k), f, done + {k})
  {
  }

  /** The payload after `body` through `categories`. */
  function FirstHalf(f: PayloadFields): map<Field, Json>
  {
    var p := map[BodyField := JStr(f.body)];
    Step(Step(Step(Step(Step(p, f, TitleField), f, TocField), f, UnsearchableField), f, LayoutKeyField),
      f, CategoriesField)
  }

  /** `p` followed by `meta` through `addenda`. */
  function SecondHalf(p: map<Field, Json>, f: PayloadFields): map<Field, Json>
  {
    Step(Step(Step(Step(Step(p, f, MetaField), f, AssetOffsetsField), f, NextField), f, PreviousField),
      f, AddendaField)
  }

  lemma FirstHalfAgrees(f: PayloadFields)
    ensures Agrees(FirstHalf(f), f, {BodyField, TitleField, TocField, UnsearchableField, LayoutKeyField,
      CategoriesField})
  {
    var p := map[BodyField := JStr(f.body)];
    assert Agrees(p, f, {BodyField});
    AddEntry(p, f, {BodyField}, TitleField);
    var p1 := Step(p, f, TitleField);
    AddEntry(p1, f, {BodyField, TitleField}, TocField);
    var p2 := Step(p1, f, TocField);
    AddEntry(p2, f, {BodyField, TitleField, TocField}, UnsearchableField);
    var p3 := Step(p2, f, UnsearchableField);
    AddEntry(p3, f, {BodyField, TitleField, TocField, UnsearchableField}, LayoutKeyField);
    var p4 := Step(p3, f, LayoutKeyField);
    AddEntry(p4, f, {BodyField, TitleField, TocField, UnsearchableField, LayoutKeyField}, CategoriesField);
  }

  lemma SecondHalfAgrees(p: map<Field, Json>, f: PayloadFields, done: set<Field>)
    requires Agrees(p, f, done)
    ensures Agrees(SecondHalf(p, f), f, done + {MetaField, AssetOffsetsField, NextField, PreviousField, AddendaField})
  {
    AddEntry(p, f, done, MetaField);
    var p1 := Step(p, f, MetaField);
    AddEntry(p1, f, done + {MetaField}, AssetOffsetsField);
    var p2 := Step(p1, f, AssetOffsetsField);
    AddEntry(p2, f, done + {MetaField, AssetOffsetsField}, NextField);
    var p3 := Step(p2, f, NextField);
    AddEntry(p3, f, done + {MetaField, AssetOffsetsField, NextField}, PreviousField);
    var p4 := Step(p3, f, PreviousField);
    AddEntry(p4, f, done + {MetaField, AssetOffsetsField, NextField, PreviousField}, AddendaField);
  }

  lemma AgreesAll(p: map<Field, Json>, f: PayloadFields, done: set<Field>)
    requires Agrees(p, f, done) && AllFields <= done
    ensures p == Payload(f)
  {
  }

  /**
   * Writing `body` and then, in the source's order, each later field's
   * entry (when it has one) gives the payload.
   */
  lemma PayloadInSteps(f: PayloadFields)
    ensures var p := map[BodyField := JStr(f.body)];
      var h := Put(Put(Put(Put(Put(p, TitleField, Entry(f, TitleField)), TocField, Entry(f, TocField)),
        UnsearchableField, Entry(f, UnsearchableField)), LayoutKeyField, Entry(f, LayoutKeyField)),
        CategoriesField, Entry(f, CategoriesField));
      Put(Put(Put(Put(Put(h, MetaField, Entry(f, MetaField)), AssetOffsetsField, Entry(f, AssetOffsetsField)),
        NextField, Entry(f, NextField)), PreviousField, Entry(f, PreviousField)),
        AddendaField, Entry(f, AddendaField)) == Payload(f)
  {
    var done := {BodyField, TitleField, TocField, UnsearchableField, LayoutKeyField, CategoriesField};
    FirstHalfAgrees(f);
    SecondHalfAgrees(FirstHalf(f), f, done);
    var p := SecondHalf(FirstHalf(f), f);
    var all := done + {MetaField, AssetOffsetsField, NextField, PreviousField, AddendaField};
    AgreesAll(p, f, all);
  }

  /** `serialization_path`: the quoted content ID plus `.json`, as one entry of the envelope directory. */
  function SerializationPath(envelopeDir: string, contentId: string): (path: string)
    ensures var file := Percent.Quote(contentId) + ".json";
      |file| <= |path| && path[|path| - |file|..] == file && Paths.Split(path).1 == file
  {
    var file := Percent.Quote(contentId) + ".json";
    assert Paths.HasNoSlash(file) by {
      assert forall i :: 0 <= i < |file| ==> file[i] != '/' by {
        forall i | 0 <= i < |file| ensures file[i] != '/' {
          if i >= |Percent.Quote(contentId)| {
            assert file[i] == ".json"[i - |Percent.Quote(contentId)|];
          }
        }
      }
    }
    Paths.JoinThenSplit(envelopeDir, file);
    Paths.Join(envelopeDir, file)
  }

  // ---------------------------------------------------------------------------
  // The envelope object

  class Envelope {
    const docname: string
    const settings: Settings
    const perPageMeta: map<string, string>

    var body: string
    var title: Option<string>
    var toc: Option<string>
    var contentId: Option<string>
    var unsearchable: Option<bool>
    var layoutKey: Option<string>
    var categories: Option<seq<string>>
    var meta: Option<map<string, string>>
    var assetOffsets: Json
    var next: Option<Link>
    var previous: Option<Link>
    var addenda: Option<map<string, string>>

    /** The fields the payload is built from. */
    function Fields(): PayloadFields
      reads this
    {
      PayloadFields(body, title, toc, unsearchable, layoutKey, categories, meta, assetOffsets,
        next, previous, addenda)
    }

    /**
     * The state `__init__` leaves: each derived field set by its
     * `_populate_*` rule, the title overridden, no navigation or addenda.
     */
    ghost predicate Populated(docname: string, body: string, title: Option<string>, toc: Option<string>,
                              settings: Settings, perPageMeta: map<string, string>, writerOffsets: Json)
      reads this
    {
      && settings.contentIdBase.Some?
      && this.docname == docname && this.settings == settings && this.perPageMeta == perPageMeta
      && this.body == body && this.toc == toc
      && meta == Some(EnvelopeMeta(settings, docname, perPageMeta))
      && unsearchable == Unsearchable(PageSetting(perPageMeta, UnsearchableKey, settings.defaultUnsearchable))
      && layoutKey == LayoutKey(perPageMeta, settings.defaultLayout)
      && categories == Categories(Get(perPageMeta, CategoriesKey), settings.globalCategories)
      && assetOffsets == writerOffsets
      && contentId == Some(ContentId.DeriveContentId(settings.contentIdBase.value, docname))
      && this.title == Title(title, perPageMeta)
      && next.None? && previous.None? && addenda.None?
    }

    /**
     * `Envelope(...)`: `__init__` raises `TypeError` from
     * `_populate_content_id` when the content-ID base is unset, and the
     * caller never receives the object; otherwise the new envelope is
     * `Populated`.
     */
    static method Create(docname: string, body: string, title: Option<string>, toc: Option<string>,
                         settings: Settings, perPageMeta: map<string, string>, writerOffsets: Json)
      returns (r: Result<Envelope, Error>)
      ensures r.Failure? <==> settings.contentIdBase.None?
      ensures r.Failure? ==> r.error == TypeError
      ensures r.Success? ==> fresh(r.value) &&
                             r.value.Populated(docname, body, title, toc, settings, perPageMeta, writerOffsets)
    {
      if settings.contentIdBase.None? {
        return Failure(TypeError);
      }
      var e := new Envelope(docname, body, title, toc, settings, perPageMeta, writerOffsets);
      r := Success(e);
    }

    /**
     * The body of `__init__` when it completes: sets every derived field to
     * unset, then fills them in the source's order: metadata, edit URL,
     * searchability, layout, categories, asset offsets (the value the
     * document writer computed), content ID, and finally the title override.
     * An unset content-ID base is the `TypeError` of `Create`.
     */
    constructor (docname: string, body: string, title: Option<string>, toc: Option<string>,
                 settings: Settings, perPageMeta: map<string, string>, writerOffsets: Json)
      requires settings.contentIdBase.Some?
      ensures Populated(docname, body, title, toc, settings, perPageMeta, writerOffsets)
    {
      this.docname := docname;
      this.settings := settings;
      this.perPageMeta := perPageMeta;
      this.body := body;
      this.toc := toc;
      meta := Some(EnvelopeMeta(settings, docname, perPageMeta));
      unsearchable := Unsearchable(PageSetting(perPageMeta, UnsearchableKey, settings.defaultUnsearchable));
      layoutKey := LayoutKey(perPageMeta, settings.defaultLayout);
      categories := Categories(Get(perPageMeta, CategoriesKey), settings.globalCategories);
      assetOffsets := writerOffsets;
      contentId := Some(ContentId.DeriveContentId(settings.contentIdBase.value, docname));
      this.title := Title(title, perPageMeta);
      next := None;
      previous := None;
      addenda := None;
    }

    /**
     * `set_next`: an absent or empty entry changes nothing; otherwise `next`
     * becomes exactly its link and title, or the missing key is reported and
     * `next` is left as it was.
     */
    method SetNext(n: Option<map<string, string>>) returns (r: Outcome<Error>)
      modifies this`next
      ensures (n.None? || n.value == map[]) ==> r.Pass? && next == old(next)
      ensures n.Some? && n.value != map[] ==> next == StoreLink(n.value, old(next)) && r == LinkOutcome(n.value)
    {
      r := Pass;
      if n.None? || n.value == map[] {
        return;
      }
      r := LinkOutcome(n.value);
      next := StoreLink(n.value, next);
    }

    /** `set_previous`, the same rule for `previous`. */
    method SetPrevious(p: Option<map<string, string>>) returns (r: Outcome<Error>)
      modifies this`previous
      ensures (p.None? || p.value == map[]) ==> r.Pass? && previous == old(previous)
      ensures p.Some? && p.value != map[] ==> previous == StoreLink(p.value, old(previous)) && r == LinkOutcome(p.value)
    {
      r := Pass;
      if p.None? || p.value == map[] {
        return;
      }
      r := LinkOutcome(p.value);
      previous := StoreLink(p.value, previous);
    }

    /** `add_addenda`: creates the map on first use; sets one entry and keeps the others. */
    method AddAddenda(name: string, addendaContentId: string)
      modifies this`addenda
      ensures addenda.Some? && addenda.value.Keys == old(addenda).GetOr(map[]).Keys + {name}
      ensures addenda.value[name] == addendaContentId
      ensures forall k :: k in old(addenda).GetOr(map[]) && k != name ==> addenda.value[k] == old(addenda).value[k]
    {
      if addenda.None? {
        addenda := Some(map[]);
      }
      addenda := Some(addenda.value[name := addendaContentId]);
    }

    /** `serialization_path`: `path.join` raises `TypeError` on an unset envelope directory. */
    function Path(): (r: Result<string, Error>)
      reads this
      requires contentId.Some?
      ensures r.Failure? <==> settings.envelopeDir.None?
      ensures r.Failure? ==> r.error == TypeError
      ensures r.Success? ==> r.value == SerializationPath(settings.envelopeDir.value, contentId.value)
    {
      if settings.envelopeDir.None? then Failure(TypeError)
      else Success(Paths.Join(settings.envelopeDir.value, Percent.Quote(contentId.value) + ".json"))
    }

    /**
     * `serialization_payload`, built one key at a time: `body`, then each
     * other field in the source's order when it has a value.
     */
    method SerializationPayload() returns (payload: map<Field, Json>)
      ensures payload == Payload(Fields())
    {
      payload := map[BodyField := JStr(body)];
      payload := Put(payload, TitleField, OptStr(NonEmpty(title)));
      payload := Put(payload, TocField, OptStr(NonEmpty(toc)));
      payload := Put(payload, UnsearchableField, OptBool(unsearchable));
      payload := Put(payload, LayoutKeyField, OptStr(layoutKey));
      payload := Put(payload, CategoriesField, OptStrList(categories));
      payload := Put(payload, MetaField, OptStrDict(meta));
      payload := Put(payload, AssetOffsetsField, OptOffsets(assetOffsets));
      payload := Put(payload, NextField, OptLink(next));
      payload := Put(payload, PreviousField, OptLink(previous));
      payload := Put(payload, AddendaField, OptStrDict(addenda));
      PayloadInSteps(Fields());
    }
  }

  /** The link a non-empty navigation entry stores, or the previous one when a key is missing. */
  function StoreLink(n: map<string, string>, current: Option<Link>): (r: Option<Link>)
    ensures "link" in n && "title" in n ==> r == Some(Link(n["link"], n["title"]))
    ensures !("link" in n && "title" in n) ==> r == current
  {
    if "link" in n && "title" in n then Some(Link(n["link"], n["title"])) else current
  }

  /** `n['link']` is looked up before `n['title']`. */
  function LinkOutcome(n: map<string, string>): (r: Outcome<Error>)
    ensures r.Pass? <==> "link" in n && "title" in n
    ensures "link" !in n ==> r == Fail(KeyError("link"))
    ensures "link" in n && "title" !in n ==> r == Fail(KeyError("title"))
  {
    if "link" !in n then Fail(KeyError("link"))
    else if "title" !in n then Fail(KeyError("title"))
    else Pass
  }
}
