/**
 * The translation hook of lib/use-translation.ts: a dotted key such as
 * "nav.home" is split at every '.', and the segments are looked up one
 * level at a time in the locale table of the current language.  Any miss
 * falls back to the key itself.
 */
module Translation {

  import opened Wrappers
  import Accessibility

  /** A parsed locale file: nested objects whose leaves are strings. */
  datatype Node = Object(entries: map<string, Node>) | Text(text: string)

  /** The two locale tables the hook knows about. */
  datatype Locales = Locales(en: Node, ur: Node)

  // ---------------------------------------------------------------------
  // Splitting a key at '.'
  // ---------------------------------------------------------------------

  /** The segments joined back with '.' separators. */
  function Join(segments: seq<string>): string
    requires |segments| >= 1
  {
    if |segments| == 1 then segments[0] else segments[0] + "." + Join(segments[1..])
  }

  /** `key.split('.')`: never empty, and an empty piece stands between two adjacent dots. */
  function Split(s: string): (r: seq<string>)
    ensures |r| >= 1
    ensures forall i :: 0 <= i < |r| ==> '.' !in r[i]
    ensures Join(r) == s
  {
    if s == [] then [""]
    else
      var rest := Split(s[1..]);
      if s[0] == '.' then
        [""] + rest
      else
        assert [s[0]] + Join(rest) == s;
        var r := [[s[0]] + rest[0]] + rest[1..];
        assert r[1..] == rest[1..];
        r
  }

  /** Splitting undoes joining dot-free segments: the split is the only such decomposition. */
  lemma {:induction false} SplitJoin(segments: seq<string>)
    requires |segments| >= 1
    requires forall i :: 0 <= i < |segments| ==> '.' !in segments[i]
    ensures Split(Join(segments)) == segments
  {
    if |segments| == 1 {
      SplitDotFree(segments[0]);
    } else {
      var tail := segments[1..];
      SplitJoin(tail);
      SplitPrefix(segments[0], Join(tail));
    }
  }

  /** A key with no dot is a single segment. */
  lemma {:induction false} SplitDotFree(s: string)
    requires '.' !in s
    ensures Split(s) == [s]
  {
    if s != [] {
      assert '.' !in s[1..] by {
        forall i | 0 <= i < |s[1..]| ensures s[1..][i] != '.' { assert s[1..][i] == s[i + 1]; }
      }
      SplitDotFree(s[1..]);
    }
  }

  /** A dot-free piece followed by '.' becomes the first segment of the split. */
  lemma {:induction false} SplitPrefix(head: string, tail: string)
    requires '.' !in head
    ensures Split(head + "." + tail) == [head] + Split(tail)
  {
    if head == [] {
      assert head + "." + tail == "." + tail;
      assert ("." + tail)[1..] == tail;
    } else {
      var s := head + "." + tail;
      assert s[1..] == head[1..] + "." + tail;
      assert '.' !in head[1..] by {
        forall i | 0 <= i < |head[1..]| ensures head[1..][i] != '.' { assert head[1..][i] == head[i + 1]; }
      }
      SplitPrefix(head[1..], tail);
      assert s[0] == head[0];
      assert [head[0]] + head[1..] == head;
    }
  }

  // ---------------------------------------------------------------------
  // The path walk
  // ---------------------------------------------------------------------

  /** Descend along `path`; None as soon as a segment is missing or a leaf is reached too early. */
  function Walk(node: Node, path: seq<string>): (r: Option<Node>)
    ensures path == [] ==> r == Some(node)
    ensures path != [] && node.Text? ==> r.None?
    decreases |path|
  {
    if path == [] then Some(node)
    else match node
      case Text(_) => None
      case Object(m) => if path[0] in m then Walk(m[path[0]], path[1..]) else None
  }

  /**
   * `value` after the loop has gone through the segments `path`: None once
   * the walk failed.  Walking further from a failed walk stays failed.
   */
  function WalkFrom(start: Option<Node>, path: seq<string>): Option<Node>
  {
    match start
    case None => None
    case Some(n) => Walk(n, path)
  }

  /** Walking a concatenated path is walking its two parts one after the other. */
  lemma {:induction false} WalkAppend(node: Node, p: seq<string>, q: seq<string>)
    ensures Walk(node, p + q) == WalkFrom(Walk(node, p), q)
    decreases |p|
  {
    if p == [] {
      assert p + q == q;
    } else {
      assert (p + q)[0] == p[0];
      assert (p + q)[1..] == p[1..] + q;
      match node
      case Text(_) =>
      case Object(m) =>
        if p[0] in m { WalkAppend(m[p[0]], p[1..], q); }
    }
  }

  /** One more step of the walk. */
  function Step(node: Node, segment: string): Option<Node>
  {
    match node
    case Text(_) => None
    case Object(m) => if segment in m then Some(m[segment]) else None
  }

  /**
   * Every segment exists at its level: `chain[i]` is the value reached after
   * `i` segments, and `chain[i + 1]` is the child of `chain[i]` named `path[i]`.
   */
  ghost predicate IsChain(node: Node, path: seq<string>, chain: seq<Node>)
  {
    && |chain| == |path| + 1
    && chain[0] == node
    && forall i :: 0 <= i < |path| ==> Step(chain[i], path[i]) == Some(chain[i + 1])
  }

  /** The walk succeeds with `v` exactly when there is a chain of children ending in `v`. */
  lemma {:induction false} WalkChain(node: Node, path: seq<string>, chain: seq<Node>)
    requires IsChain(node, path, chain)
    ensures Walk(node, path) == Some(chain[|path|])
    decreases |path|
  {
    if path != [] {
      var tail := chain[1..];
      assert Step(chain[0], path[0]) == Some(chain[1]);
      forall i | 0 <= i < |path[1..]|
        ensures Step(tail[i], path[1..][i]) == Some(tail[i + 1])
      {
        assert Step(chain[i + 1], path[i + 1]) == Some(chain[i + 2]);
      }
      assert IsChain(chain[1], path[1..], tail);
      WalkChain(chain[1], path[1..], tail);
    }
  }

  /** The converse: a successful walk yields the chain of intermediate values. */
  lemma {:induction false} ChainOfWalk(node: Node, path: seq<string>) returns (chain: seq<Node>)
    requires Walk(node, path).Some?
    ensures IsChain(node, path, chain) && chain[|path|] == Walk(node, path).value
    decreases |path|
  {
    if path == [] {
      chain := [node];
    } else {
      var child := node.entries[path[0]];
      var tail := ChainOfWalk(child, path[1..]);
      chain := [node] + tail;
      forall i | 0 <= i < |path| ensures Step(chain[i], path[i]) == Some(chain[i + 1]) {
        if i > 0 { assert Step(tail[i - 1], path[1..][i - 1]) == Some(tail[i]); }
      }
    }
  }

  /**
   * The walk fails exactly when, at some level `i`, the value reached by the
   * first `i` segments is a string leaf or has no entry `path[i]`.
   */
  lemma {:induction false} WalkMiss(node: Node, path: seq<string>, i: nat)
    requires i < |path|
    requires Walk(node, path[..i]).Some?
    requires Step(Walk(node, path[..i]).value, path[i]).None?
    ensures Walk(node, path) == None
  {
    assert path == path[..i] + path[i..];
    WalkAppend(node, path[..i], path[i..]);
    var m := Walk(node, path[..i]).value;
    assert path[i..][0] == path[i];
  }

  // ---------------------------------------------------------------------
  // The hook
  // ---------------------------------------------------------------------

  /** `settings.language || 'en'`: None stands for an absent value. */
  function EffectiveLanguage(setting: Option<string>): (language: string)
    ensures language != ""
    ensures setting.Some? && setting.value != "" ==> language == setting.value
    ensures setting.None? || setting.value == "" ==> language == "en"
  {
    match setting
    case Some(l) => if l != "" then l else "en"
    case None => "en"
  }

  /**
   * The code an `Accessibility.Settings` language is stored as.  The hook
   * reads `settings.language`, so the setting it sees is `Some(LanguageCode(..))`
   * for a record of the settings store, and any string for a value read back
   * from storage.
   */
  function LanguageCode(language: Accessibility.Language): (code: string)
    ensures code == "en" <==> language == Accessibility.En
    ensures code == "ur" <==> language == Accessibility.Ur
  {
    match language
    case En => "en"
    case Ur => "ur"
  }

  /** A language of the settings store is used as it is, and it always has a table. */
  lemma StoredLanguageHasTable(locales: Locales, s: Accessibility.Settings)
    ensures EffectiveLanguage(Some(LanguageCode(s.language))) == LanguageCode(s.language)
    ensures TableFor(locales, LanguageCode(s.language)).Some?
  {
  }

  /** `translations[language]`: there is no table for any other language code. */
  function TableFor(locales: Locales, language: string): (table: Option<Node>)
    ensures table.Some? <==> language == "en" || language == "ur"
    ensures language == "en" ==> table == Some(locales.en)
    ensures language == "ur" ==> table == Some(locales.ur)
  {
    if language == "en" then Some(locales.en)
    else if language == "ur" then Some(locales.ur)
    else None
  }

  /** What `t(key)` returns when it starts from `table`: the value found, or the key as text. */
  function Lookup(table: Option<Node>, key: string): (r: Node)
    ensures r == Text(key) || WalkFrom(table, Split(key)) == Some(r)
    ensures table.None? ==> r == Text(key)
  {
    match WalkFrom(table, Split(key))
    case Some(v) => v
    case None => Text(key)
  }

  /** `t(key)` as the source runs it: one loop step per segment, returning early on a miss. */
  method T(locales: Locales, setting: Option<string>, key: string) returns (r: Node)
    ensures r == Lookup(TableFor(locales, EffectiveLanguage(setting)), key)
  {
    var language := EffectiveLanguage(setting);
    var keys := Split(key);
    var value := TableFor(locales, language);
    ghost var table := value;
    var i := 0;
    while i < |keys|
      invariant 0 <= i <= |keys|
      invariant i > 0 ==> value.Some?
      invariant WalkFrom(table, keys) == WalkFrom(value, keys[i..])
    {
      var k := keys[i];
      var next := match value
        case Some(Object(m)) => if k in m then Some(m[k]) else None
        case _ => None;
      if next.None? {
        assert WalkFrom(value, keys[i..]) == None;
        return Text(key);
      }
      assert keys[i..][1..] == keys[i + 1..];
      value := next;
      i := i + 1;
    }
    r := value.value;
  }

  // ---------------------------------------------------------------------
  // Properties of the lookup
  // ---------------------------------------------------------------------

  /** If every segment exists in turn, `t` returns the value at the end of the path, object or string. */
  lemma LookupFound(table: Node, key: string, chain: seq<Node>)
    requires IsChain(table, Split(key), chain)
    ensures Lookup(Some(table), key) == chain[|chain| - 1]
  {
    WalkChain(table, Split(key), chain);
  }

  /** If a segment is missing at its level, or a string is reached too early, `t` returns the key. */
  lemma LookupMissing(table: Node, key: string, i: nat)
    requires i < |Split(key)|
    requires Walk(table, Split(key)[..i]).Some?
    requires Step(Walk(table, Split(key)[..i]).value, Split(key)[i]).None?
    ensures Lookup(Some(table), key) == Text(key)
  {
    WalkMiss(table, Split(key), i);
  }

  /** A result other than the key itself is always reached through a chain of existing segments. */
  lemma LookupOnlyAlongPath(table: Node, key: string) returns (chain: seq<Node>)
    requires Lookup(Some(table), key) != Text(key)
    ensures IsChain(table, Split(key), chain)
    ensures Lookup(Some(table), key) == chain[|chain| - 1]
  {
    chain := ChainOfWalk(table, Split(key));
  }

  /** For a language without a table every key falls back to itself. */
  lemma UnknownLanguage(locales: Locales, setting: Option<string>, key: string)
    requires EffectiveLanguage(setting) != "en" && EffectiveLanguage(setting) != "ur"
    ensures Lookup(TableFor(locales, EffectiveLanguage(setting)), key) == Text(key)
  {
  }

  /** A key without dots is one top-level lookup. */
  lemma DotFreeKey(table: Node, key: string)
    requires '.' !in key
    ensures Lookup(Some(table), key) ==
      if table.Object? && key in table.entries then table.entries[key] else Text(key)
  {
    SplitDotFree(key);
    match table
    case Text(_) =>
    case Object(m) =>
      if key in m { assert Walk(m[key], [key][1..]) == Some(m[key]); }
  }

  /** Only the current language's table is consulted: the other one can be anything. */
  lemma OnlyCurrentLanguage(a: Locales, b: Locales, setting: Option<string>, key: string)
    requires EffectiveLanguage(setting) == "en" ==> a.en == b.en
    requires EffectiveLanguage(setting) == "ur" ==> a.ur == b.ur
    ensures Lookup(TableFor(a, EffectiveLanguage(setting)), key)
         == Lookup(TableFor(b, EffectiveLanguage(setting)), key)
  {
  }
}
