# deconst preparer-sphinx: a Dafny model of envelope assembly

deconst's Sphinx preparer renders a documentation repository and writes one
*metadata envelope* per page. An envelope is a JSON object holding the
rendered body, the title, the layout key, categories, metadata, navigation
links and the character offsets of images in the body. The content store
files each envelope under a *content ID* derived from the page name.

This project models the logic that assembles envelopes and proves what it
guarantees:

- `content_id.dfy`, module `ContentId`: `derive_content_id`. An `index`
  page collapses to its directory, and one trailing slash is dropped.
- `config.dfy`, module `Config`: URL normalisation, the `Configuration`
  object read from the environment, and the ordered list of reasons a
  build does not submit.
- `envelope_rules.dfy`, module `EnvelopeRules`: the field rules shared by
  both builders. They cover metadata merging, searchability, layout, title
  override, the category split and union, and the GitHub edit link.
- `envelope.dfy`, module `Envelopes`: the `Envelope` class. It covers the
  constructor's `_populate_*` pipeline, the navigation and addenda
  mutators, the serialized payload and the envelope file name.
- `writer.dfy`, module `Writer`: `OffsetHTMLTranslator`. It records, for
  each image, the offset of its placeholder `src` attribute within the
  JSON-serialized page body.
- `serial.dfy`, module `Serial`: the older serial builder. `handle_page`
  adds the `deconst_*` keys to the page context. `dump_context` builds the
  envelope dictionary, the edit link and the envelope file name.
- `json_diff.dfy`, module `JsonDiff`: the structural comparison the test
  suite uses to report how a built envelope differs from the expected one.
- Supporting modules:
  - `wrappers.dfy`: `Option`, `Result` and `Outcome`.
  - `json_value.dfy`: JSON values.
  - `text.dfy`: `str.split` and `str.join` on one character.
  - `paths.dfy`: `os.path.split`, `join` and `relpath`.
  - `percent.dfy`: `urllib.parse.quote` with no safe characters, together
    with its decoding (section 2.1 of RFC 3986; unreserved set from
    section 2.3).

Modelling choices:

- Objects whose fields the source updates in place are Dafny classes:
  `Configuration`, `Envelope`, `OffsetHtmlTranslator`, `SerialBuilder` and
  the page context. Their methods are proved against specification
  functions.
- Dictionaries the source fills key by key are built the same way. Their
  loops carry invariants against a specification.
- Python raises in several places: a missing dictionary key, `glob(...)[0]`
  with no match, `relpath('')`, `path.join(None, …)` on an unset
  content-ID base or envelope directory (in `Envelope` and in the serial
  builder), and `set()` of unhashable values. Each is modelled as an
  explicit error result.

### Where the code differs from its documentation

The model follows the code.

- `visit_image` records one integer per image path. A later reference to
  the same path overwrites it. The offset points at the `s` of the matched
  `src` attribute, not at the `X` placeholder.
- The serial builder computes the content-ID suffix inline, as
  `path.join(dirname, basename)` (`deconstrst/builders/serial.py:115-119`).
  It agrees with `derive_content_id` for every name in which no slash
  follows another (`Serial.SerialSuffixAgrees`). A doubled slash is
  collapsed there and kept by `derive_content_id`
  (`Serial.SerialSuffixCollapses`).
- The two builders test the edit-link condition differently:
  - the serial builder tests `git_root != None` and that a `github_url`
    attribute exists;
  - `Envelope` tests that both values are truthy.
- `diff(v, v)` is not always empty. A list holding a list or a dictionary
  raises `TypeError` in `set()`, even against itself
  (`JsonDiff.NestedListRaises`). Where the comparison does not raise, the
  report is empty (`JsonDiff.SelfReportsNothing`).
- `deconstrst/config.py` defines none of the attributes the builders read
  besides `content_id_base` and `skip_submit_reasons`. The rest (`meta`,
  `envelope_dir`, `asset_dir`, `git_root`, `github_url`, `github_branch`,
  `apply_file`, `get_git_root`) are inputs of the model (`Envelopes.Settings`,
  `Serial.Config`).

## Model

| member | source | states |
|---|---|---|
| Config.Normalize | deconstrst/config.py:4-12 | `None` stays `None` and `""` stays empty. A non-empty result ends in `/`. The result is the input or the input plus one `/`. Input already ending in `/` is unchanged. |
| Config.NormalizeIdempotent | deconstrst/config.py:4-12 | Normalising twice is normalising once. |
| Config.Configuration.constructor | deconstrst/config.py:20-23 | Store URL and content-ID base are the normalised environment values. `isPrimary` holds exactly when `TRAVIS_PULL_REQUEST` is `"false"`. |
| Config.Configuration.SkipSubmitReasons | deconstrst/config.py:25-45 | Empty iff store URL and ID base are non-empty and the build is primary. Each reason is present iff its condition fails, and nothing else appears. At most three, in the fixed order store URL, ID base, pull request. |
| Config.ReasonsDetermined | deconstrst/config.py:25-45 | Two lists of the three reasons in reporting order with the same members are equal, so the contract of `SkipSubmitReasons` allows exactly one result. |
| ContentId.LeafIsIndex | deconstrst/builders/common.py:33-34 | The last segment is `index` exactly when the name is `index` or ends in `/index`. |
| ContentId.IndexPageSuffix | deconstrst/builders/common.py:33-35 | `dir/index` contributes `dir`. |
| ContentId.RootIndexSuffix | deconstrst/builders/common.py:33-35 | `index` contributes the empty suffix. |
| ContentId.OtherPageSuffix | deconstrst/builders/common.py:36-37 | A page whose last segment is not `index` contributes its whole name. |
| ContentId.DeriveContentIdJoined | deconstrst/builders/common.py:39-43 | The ID is the joined path, less exactly one trailing slash when it has one. |
| ContentId.SlashedBase | deconstrst/builders/common.py:39-41 | With a slash-terminated base, the ID is base + suffix less one trailing slash. |
| ContentId.GuideIndexExample | deconstrst/builders/common.py:28-43 | `guide/index` under `https://x/y/` is `https://x/y/guide`. |
| ContentId.RootIndexExample | deconstrst/builders/common.py:40-41 | `index` under `https://x/y/` is `https://x/y`. |
| ContentId.OneSlashStripped | deconstrst/builders/common.py:40-41 | Only one slash is removed: `a//` under `b/` gives `b/a/`. |
| ContentId.NoTrailingSlash | deconstrst/builders/common.py:39-43 | For a base ending in a single `/` and a relative name not ending in `/`, the ID never ends in `/`. |
| Paths.Split | deconstrst/builders/common.py:33 | `os.path.split`: the tail has no slash and is a suffix of the path; the head is a prefix. |
| Paths.Join | deconstrst/builders/common.py:39 | `os.path.join`: the result ends with the second part. For a relative second part, it extends the first with at most one separating slash. |
| Paths.SplitAfterSlash | deconstrst/builders/common.py:33 | Splitting `dir/leaf` gives back `leaf`, and `dir` when `dir` does not end in a slash. |
| Paths.JoinThenSplit | deconstrst/builders/envelope.py:72 | The last component of `join(dir, leaf)` is `leaf` for a slash-free `leaf`. |
| Paths.RelPath | deconstrst/builders/envelope.py:130 | `os.path.relpath` fails (`ValueError`) exactly for an empty path. |
| Paths.NormalizedOrdinary | deconstrst/builders/writer.py:38 | `relpath` normalises both paths first: no empty, `.` or `..` component survives. |
| Paths.CommonPrefix | deconstrst/builders/writer.py:38 | The shared ancestor `relpath` climbs to is a common prefix of both paths, and the longest one. |
| Paths.RelPathInside | deconstrst/builders/writer.py:38 | A file directly inside `start` is named by its own name relative to `start`. |
| Percent.Quote | deconstrst/builders/envelope.py:70-71 | `quote(s, safe='')` yields only unreserved characters, `%` and hex digits, so no `/`. |
| Percent.UnquoteQuote | deconstrst/builders/envelope.py:70-71 | Percent-decoding the quoted ID gives back its UTF-8 bytes. |
| Percent.QuoteInjective | deconstrst/builders/envelope.py:70-72 | Distinct content IDs get distinct envelope file names. |
| Percent.SlashExample | deconstrst/builders/envelope.py:70-71 | `a/b` quotes to `a%2Fb`. |
| Text.SplitOnJoinOn | test/diff.py:77 | Splitting a `.`-joined key path gives back the keys when no key holds a `.`. |
| EnvelopeRules.MergeMeta | deconstrst/builders/envelope.py:112-113 | Keys are the union. Per-page values win; repository values fill the rest. |
| EnvelopeRules.StripSlashes | deconstrst/builders/envelope.py:133-134 | `strip('/')` leaves no slash at either end. |
| EnvelopeRules.Unsearchable | deconstrst/builders/envelope.py:144-145 | Unset stays `None`. Otherwise the result is true exactly for `'true'` or `True`. |
| EnvelopeRules.PageUnsearchable | deconstrst/builders/envelope.py:141-145 | Unset iff neither the page nor the default sets it. True iff the page says `'true'`, or the page is silent and the default is `'true'`/`True`. A page `'false'` gives false. |
| EnvelopeRules.LayoutKey | deconstrst/builders/envelope.py:152-154 | The page's `deconstlayout` if present, else the default. |
| EnvelopeRules.Title | deconstrst/builders/envelope.py:189-190 | A `deconsttitle` entry replaces the title even when empty; otherwise the title is kept. |
| EnvelopeRules.SplitCategories | deconstrst/builders/envelope.py:166 | One piece per comma-separated part, none holding a comma. No whitespace remains next to a separating comma. |
| EnvelopeRules.SplitWithoutComma | deconstrst/builders/envelope.py:166 | A value without commas is one category, untouched. |
| EnvelopeRules.SplitExample | deconstrst/builders/envelope.py:166 | `"a , b"` splits into `a` and `b`. |
| EnvelopeRules.Dedup | deconstrst/builders/envelope.py:164-168 | The result has no duplicates and the same elements as the input. |
| EnvelopeRules.Categories | deconstrst/builders/envelope.py:161-168 | Unset iff neither the page nor the repository lists categories. Otherwise the values are distinct and their set is the union of the split page list and the global list. |
| EnvelopeRules.CategoriesExample | deconstrst/builders/envelope.py:161-168 | A category named on the page and in the repository appears once. |
| Envelopes.EnvelopeMeta | deconstrst/builders/envelope.py:106-134 | The merged metadata, plus `github_edit_url` exactly when git root and GitHub URL are both truthy. |
| Envelopes.KeyNameInjective | deconstrst/builders/envelope.py:80-102 | No two payload fields share a JSON key. |
| Envelopes.Payload | deconstrst/builders/envelope.py:74-104 | A key is present exactly when its field has an entry, and it holds that entry. |
| Envelopes.PayloadKeys | deconstrst/builders/envelope.py:80-104 | `body` is always present. `title` and `toc` are present iff truthy; each other field iff it is not `None`. No entry is null. |
| Envelopes.PayloadObject | deconstrst/builders/envelope.py:80-104 | The JSON object has exactly one key per payload field, under its name, with its value. |
| Envelopes.ParsePayloadRoundTrip | deconstrst/builders/envelope.py:74-104 | Reading the payload back gives the envelope's fields, less an empty title or toc. |
| Envelopes.PayloadDeterminedByCanonical | deconstrst/builders/envelope.py:80-84 | Two envelopes write the same payload iff they agree once empty titles and tocs are dropped. |
| Envelopes.PayloadInSteps | deconstrst/builders/envelope.py:80-104 | Setting `body`, then each present field in the source's order, yields the payload. |
| Envelopes.SerializationPath | deconstrst/builders/envelope.py:65-72 | The path ends in `quote(id) + ".json"`, and that is its last component. |
| Envelopes.Envelope.Create | deconstrst/builders/envelope.py:17-48 | `TypeError` iff the content-ID base is unset (`path.join(None, …)` in `_populate_content_id`). Otherwise a new envelope in the `Populated` state. |
| Envelopes.Envelope.constructor | deconstrst/builders/envelope.py:17-48 | With a content-ID base set, each field is set by its `_populate_*` rule, the title override last. Navigation links and addenda start unset. |
| Envelopes.Envelope.SetNext | deconstrst/builders/envelope.py:50-53 | A falsy entry changes nothing. Otherwise `next` is exactly `{url: link, title: title}`, or the missing key is reported. |
| Envelopes.Envelope.SetPrevious | deconstrst/builders/envelope.py:55-58 | The same rule as `SetNext`, for `previous`. |
| Envelopes.Envelope.AddAddenda | deconstrst/builders/envelope.py:60-63 | Creates the map on first use, sets one entry and keeps every other. |
| Envelopes.Envelope.Path | deconstrst/builders/envelope.py:65-72 | `TypeError` iff the envelope directory is unset. Otherwise `serialization_path` is `SerializationPath` of the envelope directory and content ID. |
| Envelopes.Envelope.SerializationPayload | deconstrst/builders/envelope.py:74-104 | The dictionary built key by key equals `Payload` of the fields. |
| Envelopes.StoreLink | deconstrst/builders/envelope.py:53 | With both keys the link is stored. Otherwise the previous value is kept, since the lookup raised. |
| Envelopes.LinkOutcome | deconstrst/builders/envelope.py:53 | Passes iff both keys exist. `link` is looked up before `title`. |
| Writer.Dumps | deconstrst/builders/writer.py:50 | `dumps` of a string opens and closes with `"` and is two characters longer than the escaped text. |
| Writer.EscapeCharShape | deconstrst/builders/writer.py:50 | A character is written as itself iff printable ASCII other than `"` and `\`. Otherwise it becomes an escape starting with a backslash. |
| Writer.EscapeAppend | deconstrst/builders/writer.py:69-72 | Escaping distributes over concatenation. |
| Writer.EscapeLonger | deconstrst/builders/writer.py:69-72 | Escaping never shortens text. |
| Writer.SearchLeftmost | deconstrst/builders/writer.py:50 | `RE_SRCATTR.search` finds the leftmost match, and reports none only when there is none. |
| Writer.EscapedPlaceholderAttribute | deconstrst/builders/writer.py:11 | The rendered attribute `src="X"` escapes to exactly the pattern's characters. |
| Writer.PlaceholderFound | deconstrst/builders/writer.py:49-53 | A chunk holding `src="X"` always yields a match, no later than that attribute. |
| Writer.MatchAfterQuote | deconstrst/builders/writer.py:55-56 | A match never starts at the dump's opening quote, so `start() - 1` is not negative. |
| Writer.BodyOffset | deconstrst/builders/writer.py:62-72 | `current_body_offset` is the escaped length of the text so far. |
| Writer.RecordedOffsetBound | deconstrst/builders/writer.py:44-57 | The recorded offset never points in front of the text preceding the image. |
| Writer.RecordedOffsetOneChunk | deconstrst/builders/writer.py:44-57 | When rendering appends exactly one chunk, the recorded offset is the correct one. |
| Writer.RecordedOffsetBehind | deconstrst/builders/writer.py:44-57 | When rendering appends an extra chunk first, the recorded offset falls short by the escaped length of that chunk. |
| Writer.RecordedOffsetMissesDiv | deconstrst/builders/writer.py:44-57 | For a block image (`<div>` then `<img>`), the recorded offset is five characters before the `src` attribute. |
| Writer.CorrectedOffsetLocates | deconstrst/builders/writer.py:44-57 | The offset measured from the text before the last chunk always points at the `src` attribute in the serialized page. |
| Writer.AssetKeyOfImage | deconstrst/builders/writer.py:37-39 | An image directly in `_images` is keyed by its own name. |
| Writer.OffsetHtmlTranslator.constructor | deconstrst/builders/writer.py:19-29 | No offsets yet. The build submits exactly when there is no reason to skip. |
| Writer.OffsetHtmlTranslator.CurrentBodyOffset | deconstrst/builders/writer.py:62-72 | The offset is `BodyOffset` of the preamble parts followed by the body chunks. |
| Writer.OffsetHtmlTranslator.StageAsset | deconstrst/builders/writer.py:36-42 | The key is the URI's path relative to `_images`. Without a key (an empty URI) nothing changes. With one, the URI becomes `X` and exactly one copy into the asset directory under that key is recorded. |
| Writer.OffsetHtmlTranslator.RecordMatch | deconstrst/builders/writer.py:48-60 | Records base + match start − 1 under the key, replacing any earlier value. Without a chunk or a match it raises and records nothing. |
| Writer.OffsetHtmlTranslator.RenderAndRecord | deconstrst/builders/writer.py:44-60 | The body grows by the node's chunks. The offset recorded is `RecordedOffset`, measured before those chunks, replacing any earlier one; a failed search records nothing. |
| Writer.OffsetHtmlTranslator.RenderAndRecordCorrected | deconstrst/builders/writer.py:44-60 | As `RenderAndRecord`, with `CorrectedOffset`, measured up to the last chunk. |
| Writer.OffsetHtmlTranslator.VisitImage | deconstrst/builders/writer.py:31-60 | When submitting: no copy, URI unchanged, nothing recorded. Otherwise the URI becomes `X`, the body grows by the rendered chunks, and the recorded offset is taken before rendering. |
| Writer.OffsetHtmlTranslator.VisitImageCorrected | deconstrst/builders/writer.py:31-60 | As `VisitImage`, but the offset recorded is `CorrectedOffset`, measured from everything in front of the last chunk. `CorrectedOffsetLocates` shows it points at the `src` attribute. |
| Serial.OptJson | deconstrst/builders/serial.py:74-79 | An unset title or layout is written as `null`, a set one as its string. |
| Serial.NavCheck | deconstrst/builders/serial.py:94-106 | A truthy entry lacking `link` raises `KeyError('link')`, then one lacking `title` raises `KeyError('title')`. Otherwise it passes. |
| Serial.EditUrlEntry | deconstrst/builders/serial.py:59-72 | No link iff there is no git root or no GitHub URL. With both, `IndexError` iff no source file matched, and `ValueError` iff the first match is empty. |
| Serial.EditUrlOfFileInRoot | deconstrst/builders/serial.py:65-72 | When the first match lies directly in the git root, the edit URL names that file by its own name on the configured branch. |
| Serial.PageMeta | deconstrst/builders/serial.py:56-72 | The repository metadata updated with the page's, plus `github_edit_url` when there is one. |
| Serial.EnvelopeKeysPresent | deconstrst/builders/serial.py:74-109 | See the rule list below this table. |
| Serial.EnvelopeShapeUnique | deconstrst/builders/serial.py:74-109 | The rules determine the envelope completely. |
| Serial.CategoriesBuilt | deconstrst/builders/serial.py:85-92 | The list collected from the page string and the global list, deduplicated, is the categories value. |
| Serial.EnvelopePath | deconstrst/builders/serial.py:114-126 | `TypeError` iff the ID base or envelope directory is unset. Otherwise the last component is `quote(content_id) + ".json"`. |
| Serial.SerialSuffixAgrees | deconstrst/builders/serial.py:115-119 | For names with no doubled slash, the inline suffix is `derive_content_id`'s. |
| Serial.SerialSuffixCollapses | deconstrst/builders/serial.py:115-119 | `a//b`: the inline rule gives `a/b`, `derive_content_id` keeps `a//b`. |
| Serial.EnvelopePathAgrees | deconstrst/builders/serial.py:115-126 | When not submitting, the serial builder writes to `Envelope`'s `serialization_path` of the same page. |
| Serial.PreparedEnvelope | deconstrst/builders/serial.py:136-142 | Title falls back to the context title, layout to the default. `unsearchable` is present iff the page or the default sets it. `categories` is present iff the page or the repository lists them. |
| Serial.SerialBuilder.constructor | deconstrst/builders/serial.py:40 | Stores the configuration and the submit decision. Nothing is written yet. |
| Serial.SerialBuilder.HandlePage | deconstrst/builders/serial.py:130-144 | A page without metadata raises `KeyError` and leaves the context alone. Otherwise the four `deconst_*` keys get their fallbacks and nothing else changes. |
| Serial.SerialBuilder.MergedMeta | deconstrst/builders/serial.py:55-72 | The result is the edit-link error, or `PageMeta` with the edit link. |
| Serial.SerialBuilder.LeadingEntries | deconstrst/builders/serial.py:74-92 | After the first four keys, `unsearchable` and `categories` are set, exactly those keys that have an entry hold it, and no other key is present. |
| Serial.SerialBuilder.SetNavigation | deconstrst/builders/serial.py:94-106 | A truthy entry missing a key raises. Otherwise the entry is set, or nothing when the entry is falsy. |
| Serial.SerialBuilder.BuildEnvelope | deconstrst/builders/serial.py:74-109 | Fails iff the context lacks the `deconst_*` keys (`KeyError('deconst_title')`) or a navigation entry lacks a key, with the first such error. Otherwise the dictionary has the envelope's shape. |
| Serial.SerialBuilder.PageContentId | deconstrst/builders/serial.py:114-122 | The content ID computed inline is `SerialContentId` of the base and page name, the same ID `derive_content_id` gives whenever no slash follows another (`Serial.SerialContentIdAgrees`). |
| Serial.SerialBuilder.EnvelopeFilename | deconstrst/builders/serial.py:114-126 | The computed file name is `EnvelopePath`. |
| Serial.SerialBuilder.DumpContext | deconstrst/builders/serial.py:49-128 | See the rule list below this table. |
| JsonDiff.KeyMatchesPyEq | test/diff.py:44-45 | Two hashable values are one set element iff Python's `==` holds (so `True` and `1` are one element). |
| JsonDiff.PyEqReflexive | test/diff.py:36 | Every value equals itself. |
| JsonDiff.HashSet | test/diff.py:44-45 | `set(xs)` raises iff some element is a list or a dictionary. Otherwise it is the set of elements. |
| JsonDiff.Diff | test/diff.py:7-21 | Raises exactly when `Raises`. Otherwise the entries, in any order, are `Differences`. |
| JsonDiff.DiffLists | test/diff.py:43-54 | Raises iff a list holds an unhashable element. Otherwise one entry per element of the symmetric difference: first every element only `expected` has, then every element only `actual` has. |
| JsonDiff.ItemEntries | test/diff.py:48-52 | Each loop keeps the entries before it and appends one entry per element of its set difference. |
| JsonDiff.DiffDicts | test/diff.py:24-40 | Raises iff a shared unequal key raises. Otherwise the entries are `DictDifferences`, in three consecutive groups: the missing keys, then the extra keys, then the differences under shared keys. |
| JsonDiff.KeyEntries | test/diff.py:29-33 | Keeps the entries before it and appends one `Missing`/`Extra` entry per key of one side only, with key path and value. |
| JsonDiff.SharedEntries | test/diff.py:35-38 | Recurses exactly into shared keys with unequal values; raises iff one of them does. Otherwise keeps the entries before it and appends the differences. |
| JsonDiff.QuietRaises | test/diff.py:35-38 | Two dictionaries raise iff some shared key with unequal values does. |
| JsonDiff.EntriesUnder | test/diff.py:7-40 | Every entry's key path extends the current one. Missing and extra keys name at least one more key. |
| JsonDiff.MissingKeyReported | test/diff.py:29-30 | `Missing(path + [k], v)` is reported iff `k` is only in `expected`, with `v` its value. |
| JsonDiff.ExtraKeyReported | test/diff.py:32-33 | `Extra(path + [k], v)` is reported iff `k` is only in `actual`, with `v` its value. |
| JsonDiff.SharedKeyReported | test/diff.py:35-38 | An unequal shared key's differences appear, with the key appended to the path. |
| JsonDiff.DictCount | test/diff.py:24-40 | When shared keys hold equal values: one entry per missing key plus one per extra key. |
| JsonDiff.MissingItemReported | test/diff.py:48-49 | A list element is reported missing iff `expected` has it and `actual` has no equal element. |
| JsonDiff.ExtraItemReported | test/diff.py:51-52 | A list element is reported extra iff `actual` has it and `expected` has no equal element. |
| JsonDiff.ListCount | test/diff.py:43-54 | The entry count is the size of the symmetric difference of the two sets. |
| JsonDiff.SameElementsUnreported | test/diff.py:43-54 | Reordering or repeating list elements reports nothing. |
| JsonDiff.ListOrderUnreported | test/diff.py:43-54 | `[1, 2]` against `[2, 1]`: unequal for Python, yet nothing is reported. |
| JsonDiff.TypeMismatchOneEntry | test/diff.py:8-10 | Values of different types give exactly one `Unequal` entry. |
| JsonDiff.ScalarEntries | test/diff.py:18-21 | Equal scalars give no entry; unequal scalars give exactly one. |
| JsonDiff.BoolAgainstInt | test/diff.py:8-10 | `True` against `1` is reported at the top but not as list elements. |
| JsonDiff.EqualReportsNothing | test/diff.py:7-54 | Values Python finds equal, of one type, report nothing when the comparison does not raise. |
| JsonDiff.SelfReportsNothing | test/diff.py:7-54 | `diff(v, v)` is empty whenever it does not raise. |
| JsonDiff.DictSelfReportsNothing | test/diff.py:24-40 | A dictionary compared with itself never raises and reports nothing. |
| JsonDiff.NestedListRaises | test/diff.py:44-45 | A list holding a list raises even against itself. |
| JsonDiff.Hline | test/diff.py:76-78 | The header starts with the operator and a space. A one-key path follows as that key, unchanged. |
| JsonDiff.HlineKeypath | test/diff.py:76-78 | The key path can be read back from the header when no key holds a `.`. |
| JsonDiff.HlineAmbiguous | test/diff.py:77 | Keys holding a `.` make different key paths print alike. |

Rules stated by `Serial.EnvelopeKeysPresent`, for an envelope with the
shape `dump_context` gives it:

- `body`, `title`, `layout_key` and `meta` are always present.
- An unset title or layout is written as null.
- `unsearchable` is present iff the context sets it, and is true for
  `'true'`/`True`.
- `categories` is present iff there are categories.
- `next` and `previous` are present iff the entry is truthy, as
  `{url, title}`.
- `toc` is present iff `display_toc`.
- Asset offsets and addenda are never present.

Rules stated by `Serial.SerialBuilder.DumpContext`:

- It fails with the first error the source raises: the edit link, then the
  first missing context key, then `next`, then `prev`.
- When not submitting and the envelope path cannot be formed, it fails with
  `TypeError`.
- Otherwise it writes exactly one envelope. It has the shape above and goes
  to the given file name when submitting, or else to `EnvelopePath`.

## Left out

- HTTP asset upload (`_publish_entry`, `post_process_images`): network I/O.
- Sphinx's rendering is an input of the model, not modelled:
  - `super().visit_image` is the `render` parameter, which returns the
    chunks it appends;
  - `super().dump_context` is recorded as a `Written` entry;
  - `super().handle_page` is not modelled: `DumpContext` is called on its
    own.
- Filesystem work is modelled by the inputs and records that replace it:
  - `shutil.copyfile` is recorded in the translator's `copies` list;
  - `os.getcwd()` is the `cwd` parameter;
  - `glob.glob(...)` is the `sourceFiles` parameter;
  - reading `_deconst.json` is not modelled, and the configuration is
    taken as given.
- `print` of each recorded offset (`deconstrst/builders/writer.py:59`): console output.
- `calculate_offsets` is not part of this model. Its value is the
  `writerOffsets` parameter of the `Envelope` constructor.
- `Configuration.load` is the constructor under another name.
  `get_git_root` and its `FileNotFoundError` fallback become the optional
  `gitRoot` input.
- EnvelopeRules.Categories: Python's `list(set(...))` has no fixed order.
  The model keeps each value's first occurrence, and its contract states
  only distinctness and the set of values.
- Percent.Quote: `~` is left unescaped, as Python 3.7 and later do. Earlier
  versions escape it.
- Envelopes.EnvelopeMeta: the edit link's source path is `docname +
  source_suffix`. That is what `relpath(join(cwd, srcdir, name), srcdir)`
  yields for Sphinx's normalised document names. `relpath` itself is
  modelled in `Paths.RelPath` and used by the serial builder.
- Writer.Dumps: JSON escaping is modelled concretely, as `json.dumps` does
  it with `ensure_ascii` (section 7 of RFC 8259). Other encoder settings
  are not modelled.
- `diff`'s text output is left out: colours, the `indent` argument and the
  `json.dumps` body of each entry. The entries are kept as data, and a
  list element is kept as its hashable value (`True` and `1` are one
  element). Which of two equal values Python prints is not modelled.
- JsonDiff.Diff: Python iterates over sets in no fixed order. Within each
  group of entries (missing, extra, shared) the order is specified as a
  multiset, not a sequence; the order of the groups themselves is stated
  by `DiffLists` and `DiffDicts`.
- `init_builder`, `Configuration(os.environ)` plumbing, Sphinx
  registration, the command-line entry point, packaging and the test
  harness: plumbing around the core.

## Findings

| source | as written | input that shows it | evidently intended | confidence | as-written member | corrected member |
|---|---|---|---|---|---|---|
| deconstrst/builders/writer.py:44-57 | The base offset is taken before `super().visit_image` renders the node. The match is then searched only in the last appended chunk, so any chunk appended before it is not counted. | A block-level image: docutils appends `<div>` and then the `<img …>` chunk. The recorded offset is five characters before the `src` attribute in the serialized body. | The offset locates the image's `src` attribute in the serialized page body. | medium; not executed | Writer.RecordedOffsetMissesDiv | Writer.CorrectedOffsetLocates |
