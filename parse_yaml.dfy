/**
 * The YAML extractor: the document yaml.safe_load returns, flattened to
 * one line per scalar leaf. Loading is a parameter (the document, or the
 * message of the exception it raised); scalars and keys carry the text
 * str() gives them.
 */
module ParseYaml {
  import opened Wrappers
  import opened Text

  /**
   * A key or prefix: its text as an f-string renders it, and its Python
   * truthiness. String keys are truthy when non-empty; keys like 0, False
   * or null are falsy although they render as text.
   */
  datatype Key = Key(name: string, truthy: bool)

  /** The loaded document: a dict (entries in order), a list, or a scalar. */
  datatype Yaml = YMap(entries: seq<(Key, Yaml)>) | YList(items: seq<Yaml>) | YScalar(text: string)

  /** The default `prefix=""`. */
  const NoPrefix: Key := Key("", false)

  /** `f"{prefix}.{key}" if prefix else key` */
  function Child(prefix: Key, key: Key): Key
  {
    if prefix.truthy then Key(prefix.name + "." + key.name, true) else key
  }

  /** `f"{prefix}[{i}]"` */
  function ItemKey(prefix: Key, i: nat): Key
  {
    Key(prefix.name + "[" + NatToString(i) + "]", true)
  }

  /** flatten(obj, prefix) */
  function Flatten(y: Yaml, prefix: Key): seq<string>
    decreases y, 2
  {
    match y
    case YScalar(t) => [t]
    case YMap(es) => EntryLines(y, prefix, |es|)
    case YList(xs) => ItemLines(y, prefix, |xs|)
  }

  /** The lines of the first n entries of a dict. */
  function EntryLines(y: Yaml, prefix: Key, n: nat): seq<string>
    requires y.YMap? && n <= |y.entries|
    decreases y, 1, n
  {
    if n == 0 then []
    else
      var key := Child(prefix, y.entries[n - 1].0);
      var v := y.entries[n - 1].1;
      EntryLines(y, prefix, n - 1) + (if v.YScalar? then [key.name + ": " + v.text] else Flatten(v, key))
  }

  /** The lines of the first n items of a list. */
  function ItemLines(y: Yaml, prefix: Key, n: nat): seq<string>
    requires y.YList? && n <= |y.items|
    decreases y, 1, n
  {
    if n == 0 then [] else ItemLines(y, prefix, n - 1) + Flatten(y.items[n - 1], ItemKey(prefix, n - 1))
  }

  /** The scalar leaves of the document, in traversal order. */
  function Scalars(y: Yaml): seq<string>
    decreases y, 2
  {
    match y
    case YScalar(t) => [t]
    case YMap(es) => EntryScalars(y, |es|)
    case YList(xs) => ItemScalars(y, |xs|)
  }

  function EntryScalars(y: Yaml, n: nat): seq<string>
    requires y.YMap? && n <= |y.entries|
    decreases y, 1, n
  {
    if n == 0 then [] else EntryScalars(y, n - 1) + Scalars(y.entries[n - 1].1)
  }

  function ItemScalars(y: Yaml, n: nat): seq<string>
    requires y.YList? && n <= |y.items|
    decreases y, 1, n
  {
    if n == 0 then [] else ItemScalars(y, n - 1) + Scalars(y.items[n - 1])
  }

  /** Line i is the scalar alone, or some key path, ": ", and the scalar. */
  ghost predicate LinesMatch(lines: seq<string>, leaves: seq<string>)
  {
    |lines| == |leaves| &&
    forall i :: 0 <= i < |lines| ==> lines[i] == leaves[i] || exists path :: lines[i] == path + ": " + leaves[i]
  }

  lemma LinesMatchConcat(a: seq<string>, b: seq<string>, c: seq<string>, d: seq<string>)
    requires LinesMatch(a, c) && LinesMatch(b, d)
    ensures LinesMatch(a + b, c + d)
  {
    forall i | |a| <= i < |a| + |b|
      ensures (a + b)[i] == (c + d)[i] || exists path :: (a + b)[i] == path + ": " + (c + d)[i]
    {
      assert (a + b)[i] == b[i - |a|] && (c + d)[i] == d[i - |a|];
    }
  }

  /** One line per scalar leaf, in traversal order, each ending with that scalar's text. */
  lemma {:induction false} FlattenMatchesLeaves(y: Yaml, prefix: Key)
    ensures LinesMatch(Flatten(y, prefix), Scalars(y))
    decreases y, 2
  {
    match y
    case YScalar(t) =>
    case YMap(es) => EntryLinesMatch(y, prefix, |es|);
    case YList(xs) => ItemLinesMatch(y, prefix, |xs|);
  }

  lemma {:induction false} EntryLinesMatch(y: Yaml, prefix: Key, n: nat)
    requires y.YMap? && n <= |y.entries|
    ensures LinesMatch(EntryLines(y, prefix, n), EntryScalars(y, n))
    decreases y, 1, n
  {
    if n > 0 {
      EntryLinesMatch(y, prefix, n - 1);
      var key := Child(prefix, y.entries[n - 1].0);
      var v := y.entries[n - 1].1;
      if v.YScalar? {
        assert Scalars(v) == [v.text];
        assert [key.name + ": " + v.text][0] == key.name + ": " + Scalars(v)[0];
        LinesMatchConcat(EntryLines(y, prefix, n - 1), [key.name + ": " + v.text], EntryScalars(y, n - 1), Scalars(v));
      } else {
        FlattenMatchesLeaves(v, key);
        LinesMatchConcat(EntryLines(y, prefix, n - 1), Flatten(v, key), EntryScalars(y, n - 1), Scalars(v));
      }
    }
  }

  lemma {:induction false} ItemLinesMatch(y: Yaml, prefix: Key, n: nat)
    requires y.YList? && n <= |y.items|
    ensures LinesMatch(ItemLines(y, prefix, n), ItemScalars(y, n))
    decreases y, 1, n
  {
    if n > 0 {
      ItemLinesMatch(y, prefix, n - 1);
      FlattenMatchesLeaves(y.items[n - 1], ItemKey(prefix, n - 1));
      LinesMatchConcat(ItemLines(y, prefix, n - 1), Flatten(y.items[n - 1], ItemKey(prefix, n - 1)),
                       ItemScalars(y, n - 1), Scalars(y.items[n - 1]));
    }
  }

  /** The lines of the first m entries of a dict come first among the lines of the first n. */
  lemma {:induction false} EntryLinesPrefix(y: Yaml, prefix: Key, m: nat, n: nat)
    requires y.YMap? && m <= n <= |y.entries|
    ensures |EntryLines(y, prefix, m)| <= |EntryLines(y, prefix, n)|
    ensures EntryLines(y, prefix, n)[..|EntryLines(y, prefix, m)|] == EntryLines(y, prefix, m)
    decreases n - m
  {
    if m < n {
      EntryLinesPrefix(y, prefix, m, n - 1);
      var a, k := EntryLines(y, prefix, n - 1), |EntryLines(y, prefix, m)|;
      assert EntryLines(y, prefix, n)[..|a|] == a;
      assert a[..k] == EntryLines(y, prefix, n)[..k];
    }
  }

  /** The lines of the first m items of a list come first among the lines of the first n. */
  lemma {:induction false} ItemLinesPrefix(y: Yaml, prefix: Key, m: nat, n: nat)
    requires y.YList? && m <= n <= |y.items|
    ensures |ItemLines(y, prefix, m)| <= |ItemLines(y, prefix, n)|
    ensures ItemLines(y, prefix, n)[..|ItemLines(y, prefix, m)|] == ItemLines(y, prefix, m)
    decreases n - m
  {
    if m < n {
      ItemLinesPrefix(y, prefix, m, n - 1);
      var a, k := ItemLines(y, prefix, n - 1), |ItemLines(y, prefix, m)|;
      assert ItemLines(y, prefix, n)[..|a|] == a;
      assert a[..k] == ItemLines(y, prefix, n)[..k];
    }
  }

  /**
   * Entry n of a dict, after the lines of the entries before it: a scalar
   * value gives the one line "full_key: value", where full_key is the key
   * joined to a truthy prefix with "."; any other value is flattened under
   * full_key.
   */
  lemma EntryLine(y: Yaml, prefix: Key, n: nat)
    requires y.YMap? && n < |y.entries|
    ensures var lines, off := Flatten(y, prefix), |EntryLines(y, prefix, n)|;
      var key, v := Child(prefix, y.entries[n].0), y.entries[n].1;
      && (v.YScalar? ==> off < |lines| && lines[off] == key.name + ": " + v.text)
      && (!v.YScalar? ==> off + |Flatten(v, key)| <= |lines| && lines[off..off + |Flatten(v, key)|] == Flatten(v, key))
  {
    EntryLinesPrefix(y, prefix, n + 1, |y.entries|);
    var lines, off := Flatten(y, prefix), |EntryLines(y, prefix, n)|;
    var here := EntryLines(y, prefix, n + 1);
    assert lines[..|here|] == here;
    var key, v := Child(prefix, y.entries[n].0), y.entries[n].1;
    if v.YScalar? {
      assert here[off] == key.name + ": " + v.text;
    } else {
      assert here[off..] == Flatten(v, key);
      assert lines[off..off + |Flatten(v, key)|] == here[off..];
    }
  }

  /**
   * Item i of a list, after the lines of the items before it, is flattened
   * under the key "prefix[i]"; a scalar item gives its text alone.
   */
  lemma ItemLine(y: Yaml, prefix: Key, i: nat)
    requires y.YList? && i < |y.items|
    ensures var lines, off := Flatten(y, prefix), |ItemLines(y, prefix, i)|;
      var key, item := ItemKey(prefix, i), y.items[i];
      && off + |Flatten(item, key)| <= |lines| && lines[off..off + |Flatten(item, key)|] == Flatten(item, key)
      && (item.YScalar? ==> lines[off] == item.text)
  {
    ItemLinesPrefix(y, prefix, i + 1, |y.items|);
    var lines, off := Flatten(y, prefix), |ItemLines(y, prefix, i)|;
    var here := ItemLines(y, prefix, i + 1);
    assert lines[..|here|] == here;
    var key, item := ItemKey(prefix, i), y.items[i];
    assert here[off..] == Flatten(item, key);
    assert lines[off..off + |Flatten(item, key)|] == here[off..];
    if item.YScalar? {
      assert lines[off] == here[off];
    }
  }

  /** The line count equals the number of scalar leaves. */
  lemma LineCountIsLeafCount(y: Yaml, prefix: Key)
    ensures |Flatten(y, prefix)| == |Scalars(y)|
  {
    FlattenMatchesLeaves(y, prefix);
  }

  /** A top-level key with a scalar value gives "key: value". */
  lemma TopLevelEntry(k: Key, v: string)
    ensures Flatten(YMap([(k, YScalar(v))]), NoPrefix) == [k.name + ": " + v]
  {
    var y := YMap([(k, YScalar(v))]);
    assert EntryLines(y, NoPrefix, 0) == [];
  }

  /** Nested keys are joined with ".". */
  lemma NestedEntry(k1: Key, k2: Key, v: string)
    requires k1.truthy
    ensures Flatten(YMap([(k1, YMap([(k2, YScalar(v))]))]), NoPrefix) == [k1.name + "." + k2.name + ": " + v]
  {
    var inner := YMap([(k2, YScalar(v))]);
    assert EntryLines(inner, k1, 0) == [];
    assert Flatten(inner, k1) == [k1.name + "." + k2.name + ": " + v];
    var y := YMap([(k1, inner)]);
    assert EntryLines(y, NoPrefix, 0) == [];
  }

  /** A falsy key (0, False, null) is not used as a prefix: the nested keys stand alone. */
  lemma FalsyKeyDropsPrefix(k1: Key, k2: Key, v: string)
    requires !k1.truthy
    ensures Flatten(YMap([(k1, YMap([(k2, YScalar(v))]))]), NoPrefix) == [k2.name + ": " + v]
  {
    var inner := YMap([(k2, YScalar(v))]);
    assert EntryLines(inner, k1, 0) == [];
    assert Flatten(inner, k1) == [k2.name + ": " + v];
    var y := YMap([(k1, inner)]);
    assert EntryLines(y, NoPrefix, 0) == [];
  }

  /** A list item is addressed by its 0-based index; a scalar item gives its text alone. */
  lemma ListItems(k: Key, a: string, k2: Key, b: string)
    requires k.truthy
    ensures Flatten(YMap([(k, YList([YScalar(a), YMap([(k2, YScalar(b))])]))]), NoPrefix)
         == [a, k.name + "[1]." + k2.name + ": " + b]
  {
    var item := YMap([(k2, YScalar(b))]);
    var list := YList([YScalar(a), item]);
    var ik := ItemKey(k, 1);
    assert NatToString(1) == "1";
    assert ik.name == k.name + "[1]";
    assert ik.name + "." + k2.name + ": " + b == k.name + "[1]." + k2.name + ": " + b;
    assert EntryLines(item, ik, 0) == [];
    assert Flatten(item, ik) == [k.name + "[1]." + k2.name + ": " + b];
    assert ItemLines(list, k, 0) == [];
    assert ItemLines(list, k, 1) == [a];
    assert ItemLines(list, k, 2) == [a] + Flatten(item, ik);
    assert Flatten(list, k) == [a, k.name + "[1]." + k2.name + ": " + b];
    var y := YMap([(k, list)]);
    assert Child(NoPrefix, k) == k;
    assert EntryLines(y, NoPrefix, 0) == [];
  }

  /** A scalar document gives its text alone; empty dicts and lists give nothing. */
  lemma ScalarsAndEmpties(t: string, prefix: Key, k: Key)
    ensures Flatten(YScalar(t), prefix) == [t]
    ensures Flatten(YMap([]), prefix) == [] && Flatten(YList([]), prefix) == []
    ensures Flatten(YMap([(k, YMap([])), (k, YList([]))]), prefix) == []
  {
    var y := YMap([(k, YMap([])), (k, YList([]))]);
    assert Flatten(YMap([]), Child(prefix, k)) == [];
    assert Flatten(YList([]), Child(prefix, k)) == [];
    assert EntryLines(y, prefix, 1) == [];
    assert EntryLines(y, prefix, 2) == [];
  }

  /** extract_text_from_yaml: the lines joined with newlines and stripped, or the error. */
  function ExtractYaml(loaded: Result<Yaml>): (r: string)
    ensures loaded.Err? ==> StartsWith(r, "Error reading YAML: ") && r[|"Error reading YAML: "|..] == loaded.message
  {
    match loaded
    case Ok(doc) => Strip(Join(Flatten(doc, NoPrefix), "\n"))
    case Err(e) => "Error reading YAML: " + e
  }

  /**
   * A successful load gives the stripped join of the flattened document
   * from the empty prefix: one line per leaf, keyed as EntryLine and
   * ItemLine state.
   */
  lemma ExtractYamlLines(doc: Yaml)
    ensures var lines := Flatten(doc, NoPrefix);
      ExtractYaml(Ok(doc)) == Strip(Join(lines, "\n")) && LinesMatch(lines, Scalars(doc))
  {
    FlattenMatchesLeaves(doc, NoPrefix);
  }
}
