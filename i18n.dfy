/** The translation lookup of src/store/i18n.js: a dotted key such as `nav.home` is
    split on '.', and its segments are followed one by one through the nested
    translations tree. The leaf string reached is the translation; a walk that
    leaves the objects, or ends anywhere but on a string, gives the key back. */
module I18n {
  import opened Shared

  /** A JSON value of the translations file: a string, an object of named children,
      or anything else (number, boolean, null, and the `undefined` of a missing
      property, which every step treats the same way). */
  datatype Tree = Str(s: string) | Obj(entries: map<string, Tree>) | Other

  /** `value[k]` on an object: the child, or `undefined` when there is none. */
  function Child(entries: map<string, Tree>, k: string): (t: Tree)
    ensures k !in entries ==> t == Other
    ensures k in entries ==> t == entries[k]
  {
    if k in entries then entries[k] else Other
  }

  /** The string occurs as a leaf somewhere in the tree. */
  predicate HasLeaf(t: Tree, leaf: string) {
    match t
    case Str(s) => s == leaf
    case Obj(entries) => exists k :: k in entries && HasLeaf(entries[k], leaf)
    case Other => false
  }

  /** Position of the first '.' in a string that has one. */
  function FirstDot(s: string): (i: nat)
    requires '.' in s
    ensures i < |s| && s[i] == '.' && '.' !in s[..i]
  {
    if s[0] == '.' then 0
    else
      assert '.' in s[1..] by {
        var j :| 0 <= j < |s| && s[j] == '.';
        assert s[1..][j - 1] == '.';
      }
      var i := FirstDot(s[1..]) + 1;
      assert s[..i] == [s[0]] + s[1..][..i - 1];
      i
  }

  /** Segments glued back together with '.' between them. */
  function Join(segments: seq<string>): string
    requires |segments| >= 1
  {
    if |segments| == 1 then segments[0] else segments[0] + "." + Join(segments[1..])
  }

  /** `key.split('.')`: the pieces between the dots, empty ones included, so there is
      always at least one; gluing them back gives the key. */
  function Split(key: string): (segments: seq<string>)
    ensures |segments| >= 1 && Join(segments) == key
    ensures forall i :: 0 <= i < |segments| ==> '.' !in segments[i]
    ensures |segments| == 1 <==> '.' !in key
    decreases |key|
  {
    if '.' !in key then [key]
    else
      var i := FirstDot(key);
      var rest := Split(key[i + 1..]);
      assert key == key[..i] + "." + key[i + 1..];
      [key[..i]] + rest
  }

  /** The first dot after a dot-free head is the one that follows it. */
  lemma {:induction false} FirstDotAfter(head: string, tail: string)
    requires '.' !in head
    ensures FirstDot(head + "." + tail) == |head|
  {
    var key := head + "." + tail;
    if head != [] {
      assert key[0] == head[0];
      assert key[1..] == head[1..] + "." + tail;
      FirstDotAfter(head[1..], tail);
    }
  }

  /** Splitting undoes joining, for segments free of dots. */
  lemma {:induction false} SplitJoin(segments: seq<string>)
    requires |segments| >= 1
    requires forall i :: 0 <= i < |segments| ==> '.' !in segments[i]
    ensures Split(Join(segments)) == segments
  {
    if |segments| > 1 {
      var head := segments[0];
      var tail := Join(segments[1..]);
      var key := Join(segments);
      assert key == head + "." + tail;
      assert key[|head|] == '.';
      FirstDotAfter(head, tail);
      assert key[..|head|] == head;
      assert key[|head| + 1..] == tail;
      SplitJoin(segments[1..]);
    }
  }

  /** Where the walk along `path` ends: the value reached, or None when a step finds
      something that is not an object. */
  function Resolve(t: Tree, path: seq<string>): Option<Tree>
    decreases |path|
  {
    if path == [] then Some(t)
    else if t.Obj? then Resolve(Child(t.entries, path[0]), path[1..])
    else None
  }

  /** Walking a path in two legs is walking it at once. */
  lemma {:induction false} ResolveAppend(t: Tree, a: seq<string>, b: seq<string>)
    ensures Resolve(t, a + b) == if Resolve(t, a).Some? then Resolve(Resolve(t, a).value, b) else None
    decreases |a|
  {
    if a == [] {
      assert a + b == b;
    } else if t.Obj? {
      assert (a + b)[0] == a[0] && (a + b)[1..] == a[1..] + b;
      ResolveAppend(Child(t.entries, a[0]), a[1..], b);
    }
  }

  /** A string reached by the walk is a leaf of the tree. */
  lemma {:induction false} ResolveLeaf(t: Tree, path: seq<string>, leaf: string)
    requires Resolve(t, path) == Some(Str(leaf))
    ensures HasLeaf(t, leaf)
    decreases |path|
  {
    if path != [] {
      var k := path[0];
      ResolveLeaf(Child(t.entries, k), path[1..], leaf);
      if k !in t.entries {
        ResolveOther(path[1..]);
      }
    }
  }

  /** Nothing but the empty path leads anywhere from a non-object. */
  lemma ResolveOther(path: seq<string>)
    ensures Resolve(Other, path) == if path == [] then Some(Other) else None
  {
  }

  /** `t(key)`: the string the dotted key leads to, or the key itself. */
  function Translation(translations: Tree, key: string): (r: string)
    ensures r == key || HasLeaf(translations, r)
  {
    match Resolve(translations, Split(key))
    case Some(Str(s)) =>
      ResolveLeaf(translations, Split(key), s);
      s
    case _ => key
  }

  /** A key without dots names a child of the root directly. */
  lemma TranslateTopLevel(entries: map<string, Tree>, key: string)
    requires '.' !in key
    ensures Translation(Obj(entries), key) ==
            if key in entries && entries[key].Str? then entries[key].s else key
  {
    var segments := Split(key);
    assert segments == [key];
    assert Resolve(Obj(entries), segments) == Resolve(Child(entries, key), []);
  }

  /** A dotted key into a nested object reaches the leaf under its last segment. */
  lemma TranslateNested(entries: map<string, Tree>, section: string, inner: map<string, Tree>, key: string)
    requires '.' !in section && '.' !in key
    requires section in entries && entries[section] == Obj(inner)
    ensures Translation(Obj(entries), section + "." + key) ==
            if key in inner && inner[key].Str? then inner[key].s else section + "." + key
  {
    var segments := [section, key];
    assert Join(segments[1..]) == key;
    assert Join(segments) == section + "." + key;
    SplitJoin(segments);
    assert Resolve(Obj(entries), segments) == Resolve(Obj(inner), [key]);
    assert Resolve(Obj(inner), [key]) == Resolve(Child(inner, key), []);
  }

  /** `t`, as the getter runs it: split the key, then step through the tree one
      segment at a time, giving the key back as soon as the current value is not an
      object, and at the end unless a string was reached. */
  method Translate(translations: Tree, key: string) returns (r: string)
    ensures r == Translation(translations, key)
    ensures r == key || HasLeaf(translations, r)
  {
    var keys := Split(key);
    var value := translations;
    for i := 0 to |keys|
      invariant Resolve(translations, keys) == Resolve(value, keys[i..])
    {
      if value.Obj? {
        value := Child(value.entries, keys[i]);
      } else {
        return key;
      }
    }
    r := if value.Str? then value.s else key;
  }
}
