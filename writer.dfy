/**
 * The HTML translator hook that records, for every image it renders, where
 * the image's `src` attribute sits in the JSON-serialized page body, so that
 * the content store can substitute the published asset URL later.
 */
module Writer {
  import opened Wrappers
  import opened Text
  import Paths

  // ---------------------------------------------------------------------------
  // JSON string escaping, as `json.dumps` does it with `ensure_ascii` (section 7 of RFC 8259)

  function LowerHexDigit(v: int): char
    requires 0 <= v < 16
  {
    if v < 10 then ('0' as int + v) as char else ('a' as int + v - 10) as char
  }

  /** `\uXXXX` with four lower-case hexadecimal digits. */
  function UnicodeEscape(n: int): (e: string)
    requires 0 <= n < 0x10000
    ensures |e| == 6 && e[0] == '\\'
  {
    ['\\', 'u', LowerHexDigit(n / 4096), LowerHexDigit((n / 256) % 16), LowerHexDigit((n / 16) % 16),
      LowerHexDigit(n % 16)]
  }

  /** Printable ASCII other than the quote and the backslash: the characters written as themselves. */
  predicate IsPlain(c: char)
  {
    ' ' <= c <= '~' && c != '"' && c != '\\'
  }

  /**
   * The escaped form of one character: the quote and the backslash get a
   * backslash, five control characters their short escapes, every other
   * character outside printable ASCII a `\u` escape (a surrogate pair above
   * the Basic Multilingual Plane).
   */
  function EscapeChar(c: char): string
  {
    var n := c as int;
    if c == '"' then "\\\""
    else if c == '\\' then "\\\\"
    else if c == '\n' then "\\n"
    else if c == '\r' then "\\r"
    else if c == '\t' then "\\t"
    else if n == 8 then "\\b"
    else if n == 12 then "\\f"
    else if ' ' <= c <= '~' then [c]
    else if n < 0x10000 then UnicodeEscape(n)
    else UnicodeEscape(0xD800 + (n - 0x10000) / 0x400) + UnicodeEscape(0xDC00 + (n - 0x10000) % 0x400)
  }

  /**
   * A character is written as itself exactly when it is plain; every other
   * character becomes an escape sequence, which starts with a backslash.
   */
  lemma EscapeCharShape(c: char)
    ensures IsPlain(c) <==> EscapeChar(c) == [c]
    ensures !IsPlain(c) ==> |EscapeChar(c)| >= 2 && EscapeChar(c)[0] == '\\'
  {
  }

  /** The inside of the JSON string literal for `s`. */
  function Escape(s: string): string
  {
    if s == [] then [] else EscapeChar(s[0]) + Escape(s[1..])
  }

  /** `jsonimpl.dumps(s)` for a string: the escaped text between two quotes. */
  function Dumps(s: string): (d: string)
    ensures |d| == |Escape(s)| + 2 && d[0] == '"' && d[|d| - 1] == '"'
  {
    "\"" + Escape(s) + "\""
  }

  /** Escaping works character by character, so it distributes over concatenation. */
  lemma {:induction false} EscapeAppend(a: string, b: string)
    ensures Escape(a + b) == Escape(a) + Escape(b)
  {
    if a != [] {
      assert (a + b)[1..] == a[1..] + b;
      EscapeAppend(a[1..], b);
    } else {
      assert a + b == b;
    }
  }

  /** Text made only of plain characters is its own escape. */
  lemma {:induction false} EscapePlain(s: string)
    requires forall i :: 0 <= i < |s| ==> IsPlain(s[i])
    ensures Escape(s) == s
  {
    if s != [] {
      EscapePlain(s[1..]);
      EscapeCharShape(s[0]);
      assert [s[0]] + s[1..] == s;
    }
  }

  /** Every character escapes to at least one character, so escaping never shortens text. */
  lemma {:induction false} EscapeLonger(s: string)
    ensures |Escape(s)| >= |s|
  {
    if s != [] {
      EscapeLonger(s[1..]);
      EscapeCharShape(s[0]);
    }
  }

  /** `''.join(chunks)`. */
  function Concat(chunks: seq<string>): string
  {
    if chunks == [] then [] else Concat(chunks[..|chunks| - 1]) + chunks[|chunks| - 1]
  }

  lemma {:induction false} ConcatAppend(a: seq<string>, b: seq<string>)
    ensures Concat(a + b) == Concat(a) + Concat(b)
    decreases |b|
  {
    if b == [] {
      assert a + b == a;
    } else {
      var init := b[..|b| - 1];
      assert (a + b)[..|a + b| - 1] == a + init;
      ConcatAppend(a, init);
    }
  }

  // ---------------------------------------------------------------------------
  // The placeholder pattern `src\s*=\s*\\\"(X)\\\"`, applied to escaped text

  /** The characters of the pattern, once each `\s*` is taken out: `src=\"X\"`. */
  const Pattern: string := "src=\\\"X\\\""

  /**
   * The pattern read from position `i` of `t` in state `st`, the number of
   * pattern characters matched so far. In states 3 and 4 the pattern is at a
   * `\s*`, which takes whitespace until the `=` or the backslash that
   * follows it; since neither is whitespace, the greedy `\s*` of the regular
   * expression takes exactly that run.
   */
  predicate MatchFrom(t: string, i: nat, st: nat)
    requires i <= |t| && st <= |Pattern|
    decreases |t| - i
  {
    if st == |Pattern| then true
    else if i == |t| then false
    else if (st == 3 || st == 4) && IsSpace(t[i]) then MatchFrom(t, i + 1, st)
    else t[i] == Pattern[st] && MatchFrom(t, i + 1, st + 1)
  }

  /** The pattern matches at `i`. */
  predicate MatchesAt(t: string, i: int)
  {
    0 <= i <= |t| && MatchFrom(t, i, 0)
  }

  /** The first match at or after `i`. */
  function FindFrom(t: string, i: nat): (r: Option<nat>)
    requires i <= |t|
    ensures r.Some? ==> i <= r.value < |t|
    decreases |t| - i
  {
    if i == |t| then None
    else if MatchesAt(t, i) then Some(i)
    else FindFrom(t, i + 1)
  }

  /** `RE_SRCATTR.search(t).start()`: the position of a match, if any. */
  function Search(t: string): Option<nat>
  {
    FindFrom(t, 0)
  }

  /** `FindFrom` finds the leftmost match at or after `i`, and misses none. */
  lemma {:induction false} FindFromLeftmost(t: string, i: nat)
    requires i <= |t|
    ensures var r := FindFrom(t, i);
      && (r.Some? ==> MatchesAt(t, r.value) && forall j :: i <= j < r.value ==> !MatchesAt(t, j))
      && (r.None? ==> forall j :: i <= j ==> !MatchesAt(t, j))
    decreases |t| - i
  {
    if i < |t| && !MatchesAt(t, i) {
      FindFromLeftmost(t, i + 1);
    }
  }

  /** What `Search` reports is a match. */
  lemma SearchMatches(t: string)
    ensures Search(t).Some? ==> MatchesAt(t, Search(t).value)
  {
    FindFromLeftmost(t, 0);
  }

  /** `Search` finds the leftmost match, and reports none only when there is none. */
  lemma SearchLeftmost(t: string)
    ensures var r := Search(t);
      && (r.Some? ==> MatchesAt(t, r.value) && forall j :: 0 <= j < r.value ==> !MatchesAt(t, j))
      && (r.None? ==> forall j :: !MatchesAt(t, j))
  {
    FindFromLeftmost(t, 0);
  }

  /** Reading the pattern does not depend on the text in front of the position. */
  lemma {:induction false} MatchFromShifts(pre: string, t: string, i: nat, st: nat)
    requires i <= |t| && st <= |Pattern|
    ensures MatchFrom(pre + t, |pre| + i, st) <==> MatchFrom(t, i, st)
    decreases |t| - i
  {
    if st < |Pattern| && i < |t| {
      assert (pre + t)[|pre| + i] == t[i];
      MatchFromShifts(pre, t, i + 1, st);
      MatchFromShifts(pre, t, i + 1, st + 1);
    }
  }

  /** A match stays a match whatever text follows it. */
  lemma {:induction false} MatchFromExtends(t: string, post: string, i: nat, st: nat)
    requires i <= |t| && st <= |Pattern| && MatchFrom(t, i, st)
    ensures MatchFrom(t + post, i, st)
    decreases |t| - i
  {
    if st < |Pattern| {
      assert (t + post)[i] == t[i];
      if (st == 3 || st == 4) && IsSpace(t[i]) {
        MatchFromExtends(t, post, i + 1, st);
      } else {
        MatchFromExtends(t, post, i + 1, st + 1);
      }
    }
  }

  /** A match in a suffix is a match in the whole text, shifted by the prefix, and the other way round. */
  lemma MatchShifts(pre: string, t: string, i: int)
    requires 0 <= i <= |t|
    ensures MatchesAt(pre + t, |pre| + i) <==> MatchesAt(t, i)
  {
    MatchFromShifts(pre, t, i, 0);
  }

  /** The pattern matches its own characters, whatever surrounds them. */
  lemma MatchesPattern(pre: string, post: string)
    ensures MatchesAt(pre + Pattern + post, |pre|)
  {
    assert MatchFrom(Pattern, 0, 0);
    MatchFromExtends(Pattern, post, 0, 0);
    MatchShifts(pre, Pattern + post, 0);
    assert pre + Pattern + post == pre + (Pattern + post);
  }

  /** The pieces of the placeholder attribute: `src=` and `X` are plain, the quote gets a backslash. */
  lemma EscapedPieces()
    ensures Escape("src=") == "src=" && Escape("X") == "X" && Escape("\"") == "\\\""
  {
    assert "src="[1..] == "rc=" && "rc="[1..] == "c=" && "c="[1..] == "=" && "="[1..] == "";
  }

  /** The rendered placeholder attribute `src="X"` escapes to exactly the pattern's characters. */
  lemma EscapedPlaceholderAttribute()
    ensures Escape("src=\"X\"") == Pattern
  {
    var s, q, x := "src=", "\"", "X";
    var eq := "\\\"";
    EscapedPieces();
    EscapeAppend(s, q);
    EscapeAppend(s + q, x);
    EscapeAppend(s + q + x, q);
    assert "src=\"X\"" == s + q + x + q;
    assert Pattern == s + eq + x + eq;
  }

  /**
   * Whenever the rendered chunk holds the placeholder attribute `src="X"`,
   * the search of its dump finds a match, no later than that attribute.
   */
  lemma PlaceholderFound(before: string, after: string)
    ensures var found := Search(Dumps(before + "src=\"X\"" + after));
      found.Some? && found.value <= 1 + |Escape(before)|
  {
    var chunk := before + "src=\"X\"" + after;
    var eb, ea := Escape(before), Escape(after);
    assert Escape(chunk) == eb + Pattern + ea by {
      EscapeAppend(before + "src=\"X\"", after);
      EscapeAppend(before, "src=\"X\"");
      EscapedPlaceholderAttribute();
    }
    assert Dumps(chunk) == "\"" + eb + Pattern + (ea + "\"");
    MatchesPattern("\"" + eb, ea + "\"");
    SearchLeftmost(Dumps(chunk));
  }

  /** The pattern starts with an `s`, so it never matches at the opening quote of a dumped string. */
  lemma MatchAfterQuote(chunk: string, m: nat)
    requires MatchesAt(Dumps(chunk), m)
    ensures m >= 1
  {
    assert Dumps(chunk)[0] == '"';
  }

  // ---------------------------------------------------------------------------
  // Offsets

  /** The reasons `visit_image` raises. */
  datatype WriterError =
    | NoPath                          // `relpath` of an empty URI (`ValueError`)
    | NoChunk                         // `self.body[-1]` of an empty body (`IndexError`)
    | PlaceholderNotFound(chunk: string)

  /** `current_body_offset`: the length of the serialized page text so far, less the two quotes. */
  function BodyOffset(parts: seq<string>): (n: int)
    ensures n == |Escape(Concat(parts))|
  {
    |Dumps(Concat(parts))| - 2
  }

  /**
   * Searching the dumped last chunk: the start of the match, less one for the
   * opening quote of the dump, added to `baseOffset`.
   */
  function LastChunkOffset(chunks: seq<string>, baseOffset: int): (r: Result<int, WriterError>)
  {
    if chunks == [] then Failure(NoChunk)
    else
      var chunk := chunks[|chunks| - 1];
      var found := Search(Dumps(chunk));
      if found.None? then Failure(PlaceholderNotFound(chunk))
      else Success(baseOffset + found.value - 1)
  }

  /** A successful search of the last chunk: the chunk exists, the search found a match, and the offset is measured from it. */
  lemma LastChunkOffsetFound(chunks: seq<string>, baseOffset: int)
    requires LastChunkOffset(chunks, baseOffset).Success?
    ensures chunks != [] && Search(Dumps(chunks[|chunks| - 1])).Some?
    ensures LastChunkOffset(chunks, baseOffset).value == baseOffset + Search(Dumps(chunks[|chunks| - 1])).value - 1
  {
  }

  /**
   * The offset `visit_image` records after rendering appends `appended` to
   * `body`: measured from the text in front of the node, taken before rendering.
   */
  function RecordedOffset(preamble: seq<string>, body: seq<string>, appended: seq<string>): Result<int, WriterError>
  {
    LastChunkOffset(body + appended, BodyOffset(preamble + body))
  }

  /** The escaped length of the preamble and every chunk but the last of `after`. */
  function FrontOffset(preamble: seq<string>, after: seq<string>): int
  {
    if after == [] then 0 else BodyOffset(preamble + after[..|after| - 1])
  }

  /** The offset measured from everything in front of the last chunk instead. */
  function CorrectedOffset(preamble: seq<string>, body: seq<string>, appended: seq<string>): Result<int, WriterError>
  {
    LastChunkOffset(body + appended, FrontOffset(preamble, body + appended))
  }

  /** The recorded offset never points in front of the text that preceded the node. */
  lemma RecordedOffsetBound(preamble: seq<string>, body: seq<string>, appended: seq<string>)
    requires RecordedOffset(preamble, body, appended).Success?
    ensures RecordedOffset(preamble, body, appended).value >= BodyOffset(preamble + body)
  {
    var after := body + appended;
    var chunk := after[|after| - 1];
    SearchMatches(Dumps(chunk));
    MatchAfterQuote(chunk, Search(Dumps(chunk)).value);
  }

  /** The dump of the text before a chunk and the chunk: the escaped front between the opening quote and the chunk's dump. */
  lemma DumpsLastChunk(front: seq<string>, chunk: string)
    ensures Dumps(Concat(front + [chunk])) == "\"" + Escape(Concat(front)) + Dumps(chunk)[1..]
  {
    EscapeLast(front, chunk);
    QuotedSplit(Escape(Concat(front)), Escape(chunk));
  }

  /** Escaping the text of `front` followed by one chunk. */
  lemma EscapeLast(front: seq<string>, chunk: string)
    ensures Escape(Concat(front + [chunk])) == Escape(Concat(front)) + Escape(chunk)
  {
    ConcatAppend(front, [chunk]);
    assert Concat([chunk]) == chunk by { assert [chunk][..0] == []; }
    EscapeAppend(Concat(front), chunk);
  }

  /** Quoting `e + c` is an opening quote, `e`, then the quoted `c` less its opening quote. */
  lemma QuotedSplit(e: string, c: string)
    ensures "\"" + (e + c) + "\"" == "\"" + e + ("\"" + c + "\"")[1..]
  {
    assert ("\"" + c + "\"")[1..] == c + "\"";
  }

  /** A match in a dumped string, past its opening quote, carries over to a text that ends with the rest of that dump. */
  lemma MatchPastQuote(d: string, pre: string, m: nat, whole: string, at: int)
    requires |d| >= 1 && m >= 1 && MatchesAt(d, m)
    requires whole == pre + d[1..] && at == |pre| + m - 1
    ensures MatchesAt(whole, at)
  {
    var t := d[1..];
    assert d == d[..1] + t;
    MatchShifts(d[..1], t, m - 1);
    MatchShifts(pre, t, m - 1);
  }

  /** A match inside the dump of the last chunk is a match in the dump of the whole text, past the escaped front. */
  lemma MatchInLastChunk(front: seq<string>, chunk: string, m: nat, parts: seq<string>, at: int)
    requires m >= 1 && MatchesAt(Dumps(chunk), m)
    requires parts == front + [chunk] && at == |Escape(Concat(front))| + m
    ensures MatchesAt(Dumps(Concat(parts)), at)
  {
    var whole, d, e := Dumps(Concat(parts)), Dumps(chunk), Escape(Concat(front));
    assert whole == "\"" + e + d[1..] by { DumpsLastChunk(front, chunk); }
    MatchPastQuote(d, "\"" + e, m, whole, at);
  }

  /** Measuring from the whole front and searching the last chunk locates the `src` attribute in the dump of all parts. */
  lemma LastChunkOffsetLocates(front: seq<string>, chunk: string, parts: seq<string>, v: int)
    requires parts == front + [chunk] && Search(Dumps(chunk)).Some?
    requires v == BodyOffset(front) + Search(Dumps(chunk)).value - 1
    ensures v >= 0 && MatchesAt(Dumps(Concat(parts)), v + 1)
  {
    var m := Search(Dumps(chunk)).value;
    SearchMatches(Dumps(chunk));
    MatchAfterQuote(chunk, m);
    MatchInLastChunk(front, chunk, m, parts, v + 1);
  }

  lemma SplitLast(preamble: seq<string>, after: seq<string>, parts: seq<string>)
    requires after != [] && parts == preamble + after
    ensures parts == preamble + after[..|after| - 1] + [after[|after| - 1]]
  {
    assert after == after[..|after| - 1] + [after[|after| - 1]];
  }

  /**
   * The corrected offset always points at the `src` attribute of the image in
   * the serialized page text: one past it (the opening quote) the pattern matches.
   */
  lemma CorrectedOffsetLocates(preamble: seq<string>, body: seq<string>, appended: seq<string>)
    requires CorrectedOffset(preamble, body, appended).Success?
    ensures var v := CorrectedOffset(preamble, body, appended).value;
      v >= 0 && MatchesAt(Dumps(Concat(preamble + body + appended)), v + 1)
  {
    LastChunkLocates(preamble, body + appended, preamble + body + appended, CorrectedOffset(preamble, body, appended));
  }

  /** The corrected offset, with the chunks after the preamble and the whole text given by name. */
  lemma LastChunkLocates(preamble: seq<string>, after: seq<string>, parts: seq<string>, r: Result<int, WriterError>)
    requires after != [] && parts == preamble + after
    requires r == LastChunkOffset(after, FrontOffset(preamble, after)) && r.Success?
    ensures r.value >= 0 && MatchesAt(Dumps(Concat(parts)), r.value + 1)
  {
    var front := preamble + after[..|after| - 1];
    LastChunkOffsetFound(after, BodyOffset(front));
    SplitLast(preamble, after, parts);
    LastChunkOffsetLocates(front, after[|after| - 1], parts, r.value);
  }

  /** When rendering the node appends exactly one chunk, the recorded offset is the corrected one. */
  lemma RecordedOffsetOneChunk(preamble: seq<string>, body: seq<string>, chunk: string)
    ensures RecordedOffset(preamble, body, [chunk]) == CorrectedOffset(preamble, body, [chunk])
  {
    assert (body + [chunk])[..|body|] == body;
  }

  /**
   * When rendering appends an `extra` chunk in front of the chunk that holds
   * the image, the recorded offset falls short of the corrected one by the
   * escaped length of `extra`: it fails or succeeds with it, and is never
   * the corrected offset unless `extra` is empty.
   */
  lemma RecordedOffsetBehind(preamble: seq<string>, body: seq<string>, extra: string, chunk: string)
    ensures RecordedOffset(preamble, body, [extra, chunk]).Success? <==> CorrectedOffset(preamble, body, [extra, chunk]).Success?
    ensures CorrectedOffset(preamble, body, [extra, chunk]).Success? ==>
      RecordedOffset(preamble, body, [extra, chunk]).value + |Escape(extra)| == CorrectedOffset(preamble, body, [extra, chunk]).value
    ensures CorrectedOffset(preamble, body, [extra, chunk]).Success? && extra != [] ==>
      RecordedOffset(preamble, body, [extra, chunk]).value < CorrectedOffset(preamble, body, [extra, chunk]).value
  {
    var after := body + [extra, chunk];
    assert after[..|after| - 1] == body + [extra];
    assert after[|after| - 1] == chunk;
    ConcatAppend(preamble + body, [extra]);
    assert Concat([extra]) == extra by { assert [extra][..0] == []; }
    assert preamble + body + [extra] == preamble + (body + [extra]);
    EscapeAppend(Concat(preamble + body), extra);
    EscapeLonger(extra);
  }

  /**
   * A block-level image: docutils appends an opening `<div>` before the
   * `<img>` chunk, so the recorded offset lands five characters in front of
   * the image's `src` attribute.
   */
  lemma RecordedOffsetMissesDiv(preamble: seq<string>, body: seq<string>, img: string)
    requires CorrectedOffset(preamble, body, ["<div>", img]).Success?
    ensures var v := CorrectedOffset(preamble, body, ["<div>", img]).value;
      && MatchesAt(Dumps(Concat(preamble + body + ["<div>", img])), v + 1)
      && RecordedOffset(preamble, body, ["<div>", img]).Success?
      && RecordedOffset(preamble, body, ["<div>", img]).value == v - 5
  {
    RecordedOffsetLags(preamble, body, "<div>", img, 5);
    CorrectedOffsetLocates(preamble, body, ["<div>", img]);
  }

  /** An `extra` chunk of `n` characters with nothing to escape puts the recorded offset `n` in front of the corrected one. */
  lemma RecordedOffsetLags(preamble: seq<string>, body: seq<string>, extra: string, img: string, n: int)
    requires CorrectedOffset(preamble, body, [extra, img]).Success?
    requires |extra| == n && forall i :: 0 <= i < |extra| ==> IsPlain(extra[i])
    ensures var v := CorrectedOffset(preamble, body, [extra, img]).value;
      && RecordedOffset(preamble, body, [extra, img]).Success?
      && RecordedOffset(preamble, body, [extra, img]).value == v - n
  {
    EscapePlain(extra);
    RecordedOffsetBehind(preamble, body, extra, img);
  }

  // ---------------------------------------------------------------------------
  // The translator

  /** A docutils image node; `visit_image` rewrites its URI. */
  class ImageNode {
    var uri: string

    constructor (uri: string)
      ensures this.uri == uri
    {
      this.uri := uri;
    }
  }

  /** Where Sphinx places the images it copies for a build. */
  const AssetSrcRoot: string := "_images"

  /** The single reserved character that stands for an image URI while it is rendered. */
  const Placeholder: string := "X"

  /** The key an image is recorded under: its path relative to the image directory. */
  function AssetKey(cwd: string, uri: string): Option<string>
  {
    Paths.RelPath(cwd, uri, AssetSrcRoot)
  }

  /** An image's key when Sphinx's image directory holds it directly. */
  lemma AssetKeyOfImage(cwd: string, name: string)
    requires Paths.StartsWithSlash(cwd) && Paths.Ordinary(name) && Paths.HasNoSlash(name)
    ensures AssetKey(cwd, AssetSrcRoot + "/" + name) == Some(name)
  {
    Paths.RelPathInside(cwd, AssetSrcRoot, name);
  }

  /**
   * `OffsetHTMLTranslator`: the page body as a list of chunks, the text
   * docutils writes in front of it, and the offsets recorded so far.
   */
  class OffsetHtmlTranslator {
    /** `head_prefix + head + stylesheet + body_prefix + body_pre_docinfo + docinfo`. */
    var preamble: seq<string>
    var body: seq<string>
    var assetOffsets: map<string, int>
    /** `(source, destination)` of every `shutil.copyfile` so far. */
    var copies: seq<(string, string)>

    const shouldSubmit: bool
    const assetDestRoot: string
    /** `os.getcwd()`, which `relpath` reads. */
    const cwd: string

    /** `__init__`: no offsets yet; the build submits exactly when there is no reason to skip. */
    constructor (preamble: seq<string>, skipSubmitReasons: seq<string>, assetDir: string, cwd: string)
      ensures this.preamble == preamble && body == [] && assetOffsets == map[] && copies == []
      ensures shouldSubmit <==> skipSubmitReasons == []
      ensures assetDestRoot == assetDir && this.cwd == cwd
    {
      this.preamble := preamble;
      body := [];
      assetOffsets := map[];
      copies := [];
      shouldSubmit := skipSubmitReasons == [];
      assetDestRoot := assetDir;
      this.cwd := cwd;
    }

    /** `current_body_offset`: the length of the escaped page text emitted so far. */
    function CurrentBodyOffset(): (n: int)
      reads this
      ensures n == |Escape(Concat(preamble + body))|
      ensures n == |Escape(Concat(preamble))| + |Escape(Concat(body))|
    {
      ConcatAppend(preamble, body);
      EscapeAppend(Concat(preamble), Concat(body));
      BodyOffset(preamble + body)
    }

    /**
     * The first half of `visit_image` when not submitting: the image's key is
     * its path relative to the image directory (`relpath` fails on an empty
     * URI), the image is copied under that key into the asset directory, and
     * the node's URI becomes the placeholder.
     */
    method StageAsset(node: ImageNode) returns (key: Option<string>)
      modifies this`copies, node
      ensures key == AssetKey(cwd, old(node.uri))
      ensures key.None? ==> node.uri == old(node.uri) && copies == old(copies)
      ensures key.Some? ==>
        node.uri == Placeholder && copies == old(copies) + [(old(node.uri), Paths.Join(assetDestRoot, key.value))]
    {
      var src := node.uri;
      key := AssetKey(cwd, src);
      if key.None? {
        return;
      }
      copies := copies + [(src, Paths.Join(assetDestRoot, key.value))];
      node.uri := Placeholder;
    }

    /**
     * The second half of `visit_image`: search the dumped last chunk for the
     * placeholder's `src` attribute and record `baseOffset` plus the match's
     * start less one under `key`; raise when there is no chunk or no match.
     */
    method RecordMatch(key: string, baseOffset: int) returns (r: Outcome<WriterError>)
      modifies this`assetOffsets
      ensures var found := LastChunkOffset(body, baseOffset);
        && (found.Success? ==> r.Pass? && assetOffsets == old(assetOffsets)[key := found.value])
        && (found.Failure? ==> r == Fail(found.error) && assetOffsets == old(assetOffsets))
    {
      if body == [] {
        return Fail(NoChunk);
      }
      var chunk := body[|body| - 1];
      var chunkMatch := Search(Dumps(chunk));
      if chunkMatch.None? {
        return Fail(PlaceholderNotFound(chunk));
      }
      var chunkOffset := chunkMatch.value - 1;
      var offset := baseOffset + chunkOffset;
      assetOffsets := assetOffsets[key := offset];
      return Pass;
    }

    /**
     * `visit_image`. When submitting, the node is rendered untouched and
     * nothing is recorded. Otherwise the image is staged, the offset of the
     * text so far is taken, the node is rendered (`render` stands for the
     * docutils translator appending its chunks for the node's URI), and the
     * match found in the last chunk is recorded; it replaces any offset
     * recorded earlier for the same image.
     */
    method VisitImage(node: ImageNode, render: string -> seq<string>) returns (r: Outcome<WriterError>)
      modifies this`body, this`assetOffsets, this`copies, node
      ensures shouldSubmit ==>
        r.Pass? && node.uri == old(node.uri) && body == old(body) + render(old(node.uri)) &&
        assetOffsets == old(assetOffsets) && copies == old(copies)
      ensures !shouldSubmit && old(node.uri) == "" ==>
        r == Fail(NoPath) && node.uri == old(node.uri) && body == old(body) &&
        assetOffsets == old(assetOffsets) && copies == old(copies)
      ensures !shouldSubmit && old(node.uri) != "" ==>
        var key := AssetKey(cwd, old(node.uri)).value;
        var recorded := RecordedOffset(preamble, old(body), render(Placeholder));
        && node.uri == Placeholder
        && body == old(body) + render(Placeholder)
        && copies == old(copies) + [(old(node.uri), Paths.Join(assetDestRoot, key))]
        && (recorded.Success? ==> r.Pass? && assetOffsets == old(assetOffsets)[key := recorded.value])
        && (recorded.Failure? ==> r == Fail(recorded.error) && assetOffsets == old(assetOffsets))
    {
      if shouldSubmit {
        body := body + render(node.uri);
        return Pass;
      }
      var key := StageAsset(node);
      if key.None? {
        return Fail(NoPath);
      }
      r := RenderAndRecord(key.value, render(node.uri));
    }

    /**
     * The rest of `visit_image` once the image is staged: take the offset of
     * the text so far, append the node's chunks, then record the match.
     */
    method RenderAndRecord(key: string, chunks: seq<string>) returns (r: Outcome<WriterError>)
      modifies this`body, this`assetOffsets
      ensures body == old(body) + chunks
      ensures var recorded := RecordedOffset(preamble, old(body), chunks);
        && (recorded.Success? ==> r.Pass? && assetOffsets == old(assetOffsets)[key := recorded.value])
        && (recorded.Failure? ==> r == Fail(recorded.error) && assetOffsets == old(assetOffsets))
    {
      var baseOffset := CurrentBodyOffset();
      body := body + chunks;
      r := RecordMatch(key, baseOffset);
    }

    /**
     * `visit_image` with the offset measured against everything in front of
     * the chunk that holds the match: it records `CorrectedOffset`, which
     * always points at the `src` attribute in the serialized page text
     * (`CorrectedOffsetLocates`).
     */
    method VisitImageCorrected(node: ImageNode, render: string -> seq<string>) returns (r: Outcome<WriterError>)
      modifies this`body, this`assetOffsets, this`copies, node
      ensures shouldSubmit ==>
        r.Pass? && node.uri == old(node.uri) && body == old(body) + render(old(node.uri)) &&
        assetOffsets == old(assetOffsets) && copies == old(copies)
      ensures !shouldSubmit && old(node.uri) == "" ==>
        r == Fail(NoPath) && node.uri == old(node.uri) && body == old(body) &&
        assetOffsets == old(assetOffsets) && copies == old(copies)
      ensures !shouldSubmit && old(node.uri) != "" ==>
        var key := AssetKey(cwd, old(node.uri)).value;
        var recorded := CorrectedOffset(preamble, old(body), render(Placeholder));
        && node.uri == Placeholder
        && body == old(body) + render(Placeholder)
        && copies == old(copies) + [(old(node.uri), Paths.Join(assetDestRoot, key))]
        && (recorded.Success? ==> r.Pass? && assetOffsets == old(assetOffsets)[key := recorded.value])
        && (recorded.Failure? ==> r == Fail(recorded.error) && assetOffsets == old(assetOffsets))
    {
      if shouldSubmit {
        body := body + render(node.uri);
        return Pass;
      }
      var key := StageAsset(node);
      if key.None? {
        return Fail(NoPath);
      }
      r := RenderAndRecordCorrected(key.value, render(node.uri));
    }

    /** As `RenderAndRecord`, but measuring after rendering, up to the last chunk. */
    method RenderAndRecordCorrected(key: string, chunks: seq<string>) returns (r: Outcome<WriterError>)
      modifies this`body, this`assetOffsets
      ensures body == old(body) + chunks
      ensures var recorded := CorrectedOffset(preamble, old(body), chunks);
        && (recorded.Success? ==> r.Pass? && assetOffsets == old(assetOffsets)[key := recorded.value])
        && (recorded.Failure? ==> r == Fail(recorded.error) && assetOffsets == old(assetOffsets))
    {
      body := body + chunks;
      var baseOffset := FrontOffset(preamble, body);
      r := RecordMatch(key, baseOffset);
    }
  }
}
