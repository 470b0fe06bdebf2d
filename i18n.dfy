/** The translation resolver: `t(key)` walks the active language's nested
    dictionary along the dot-separated segments of `key`. */
module I18n {
  import opened Wrappers
  import opened Text

  datatype Language = En | Ar

  /** A translation dictionary: string leaves under nested objects. */
  datatype Tree = Leaf(text: string) | Node(children: map<string, Tree>)

  /** The two locale documents, one per language (their contents are data). */
  datatype Translations = Translations(en: Tree, ar: Tree)

  function Dictionary(tr: Translations, lang: Language): Tree
  {
    match lang
    case En => tr.en
    case Ar => tr.ar
  }

  /** What `String(v)` gives for a value reached by the walk: a leaf's own
      text, and "[object Object]" for a nested object. */
  const ObjectText := "[object Object]"

  function Stringify(t: Tree): string
  {
    match t
    case Leaf(s) => s
    case Node(_) => ObjectText
  }

  const MissPrefix := "Translation key not found: "

  /** One step of the walk: `result && result[k] !== undefined`. Only an
      object holding `k` lets the walk continue. */
  function Lookup(t: Tree, k: string): (r: Option<Tree>)
    ensures r.Some? <==> t.Node? && k in t.children
    ensures r.Some? ==> r.value == t.children[k]
  {
    match t
    case Node(m) => if k in m then Some(m[k]) else None
    case Leaf(_) => None
  }

  /** The value reached by looking up `segs` in order, or None on a miss. */
  function Resolve(t: Tree, segs: seq<string>): (r: Option<Tree>)
    ensures segs == [] ==> r == Some(t)
    ensures segs != [] && r.Some? ==> t.Node? && segs[0] in t.children
    ensures t.Leaf? && segs != [] ==> r.None?
    decreases |segs|
  {
    if segs == [] then Some(t)
    else
      match Lookup(t, segs[0])
      case None => None
      case Some(c) => Resolve(c, segs[1..])
  }

  /** How many leading segments resolve before the walk stops. */
  function ResolvedPrefix(t: Tree, segs: seq<string>): nat
    decreases |segs|
  {
    if segs == [] then 0
    else
      match Lookup(t, segs[0])
      case None => 0
      case Some(c) => 1 + ResolvedPrefix(c, segs[1..])
  }

  /** The reference meaning of `t(key)`. */
  function Translated(tr: Translations, lang: Language, key: string): (r: string)
    ensures Dictionary(tr, lang).Leaf? ==> r == key
    ensures r != key ==> Resolve(Dictionary(tr, lang), Split(key, '.')).Some?
  {
    match Resolve(Dictionary(tr, lang), Split(key, '.'))
    case Some(v) => Stringify(v)
    case None => key
  }

  /** `t(key)` as the source runs it: a loop over `key.split('.')` that
      returns the key (after one warning) at the first missing segment.
      `visited` counts the segments looked up. */
  method Translate(tr: Translations, lang: Language, key: string)
    returns (r: string, warnings: seq<string>, visited: nat)
    ensures r == Translated(tr, lang, key)
    ensures Resolve(Dictionary(tr, lang), Split(key, '.')).None? ==>
              warnings == [MissPrefix + key] &&
              visited == ResolvedPrefix(Dictionary(tr, lang), Split(key, '.')) + 1
    ensures Resolve(Dictionary(tr, lang), Split(key, '.')).Some? ==>
              warnings == [] && visited == |Split(key, '.')|
  {
    var keys := Split(key, '.');
    ghost var root := Dictionary(tr, lang);
    var result := Dictionary(tr, lang);
    var i := 0;
    while i < |keys|
      invariant 0 <= i <= |keys|
      invariant Resolve(root, keys) == Resolve(result, keys[i..])
      invariant ResolvedPrefix(root, keys) == i + ResolvedPrefix(result, keys[i..])
    {
      assert keys[i..][0] == keys[i] && keys[i..][1..] == keys[i + 1..];
      match Lookup(result, keys[i])
      case None =>
        warnings := [MissPrefix + key];
        visited := i + 1;
        r := key;
        return;
      case Some(c) =>
        result := c;
      i := i + 1;
    }
    assert keys[i..] == [];
    r, warnings, visited := Stringify(result), [], i;
  }

  // ------------------------------------------------------------- properties

  /** Segments are looked up left to right: resolving `a + b` resolves `a`
      first, then `b` from wherever `a` led. */
  lemma {:induction false} ResolveAppend(t: Tree, a: seq<string>, b: seq<string>)
    ensures Resolve(t, a + b) ==
              match Resolve(t, a)
              case None => None
              case Some(u) => Resolve(u, b)
    decreases |a|
  {
    if a != [] {
      assert (a + b)[0] == a[0] && (a + b)[1..] == a[1..] + b;
      if Lookup(t, a[0]).Some? {
        ResolveAppend(Lookup(t, a[0]).value, a[1..], b);
      }
    } else {
      assert a + b == b;
    }
  }

  /** A miss at one segment hides every later segment: nothing after it
      changes the outcome. */
  lemma MissStopsTheWalk(t: Tree, a: seq<string>, k: string, b: seq<string>)
    requires Resolve(t, a).Some? && Lookup(Resolve(t, a).value, k).None?
    ensures Resolve(t, a + [k] + b).None?
  {
    ResolveAppend(t, a, [k] + b);
    assert a + [k] + b == a + ([k] + b);
  }

  /** The walk misses exactly when fewer than all segments resolve. */
  lemma {:induction false} MissIffShortPrefix(t: Tree, segs: seq<string>)
    ensures ResolvedPrefix(t, segs) <= |segs|
    ensures Resolve(t, segs).None? <==> ResolvedPrefix(t, segs) < |segs|
    decreases |segs|
  {
    if segs != [] && Lookup(t, segs[0]).Some? {
      MissIffShortPrefix(Lookup(t, segs[0]).value, segs[1..]);
    }
  }

  /** A key built by joining dot-free segments is looked up segment by
      segment in exactly that order. */
  lemma TranslatedAlongPath(tr: Translations, lang: Language, segs: seq<string>)
    requires |segs| >= 1
    requires forall k :: 0 <= k < |segs| ==> '.' !in segs[k]
    ensures Translated(tr, lang, Join(segs, '.')) ==
              match Resolve(Dictionary(tr, lang), segs)
              case Some(v) => Stringify(v)
              case None => Join(segs, '.')
  {
    SplitJoin(segs, '.');
  }

  /** A key with no dot is one top-level lookup. */
  lemma TranslatedTopLevel(tr: Translations, lang: Language, key: string)
    requires '.' !in key
    ensures Translated(tr, lang, key) ==
              match Lookup(Dictionary(tr, lang), key)
              case Some(v) => Stringify(v)
              case None => key
  {
    SplitWithoutSeparator(key, '.');
    var d := Dictionary(tr, lang);
    assert [key][0] == key && [key][1..] == [];
    assert Resolve(d, [key]) == match Lookup(d, key) case None => None case Some(c) => Resolve(c, []);
  }

  /** Walking to a string leaf gives that leaf's text. */
  lemma TranslatedLeaf(tr: Translations, lang: Language, key: string, s: string)
    requires Resolve(Dictionary(tr, lang), Split(key, '.')) == Some(Leaf(s))
    ensures Translated(tr, lang, key) == s
  {
  }

  /** Walking to an inner object does not fall back to the key: the result
      is the object's stringification. */
  lemma TranslatedInnerNode(tr: Translations, lang: Language, key: string, m: map<string, Tree>)
    requires Resolve(Dictionary(tr, lang), Split(key, '.')) == Some(Node(m))
    ensures Translated(tr, lang, key) == ObjectText
  {
  }

  /** The two-language example: "a.b" gives each language's text, "a.c"
      falls back to the key in both. */
  lemma HelloExample(hello: string, marhaba: string)
    ensures var tr := Translations(Node(map["a" := Node(map["b" := Leaf(hello)])]),
                                   Node(map["a" := Node(map["b" := Leaf(marhaba)])]));
            Translated(tr, En, "a.b") == hello &&
            Translated(tr, Ar, "a.b") == marhaba &&
            Translated(tr, En, "a.c") == "a.c" &&
            Translated(tr, Ar, "a.c") == "a.c"
  {
    var ab := ["a", "b"];
    var ac := ["a", "c"];
    SplitJoin(ab, '.');
    SplitJoin(ac, '.');
    assert Join(ab, '.') == "a.b";
    assert Join(ac, '.') == "a.c";
  }
}
