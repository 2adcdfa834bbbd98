/**
 * The merged tree says what the source tree says, keeps the destination's keys in place with
 * their comments, and gives sequences the source's length, order and keys.
 */
module YamlFaithful {
  import opened Wrappers
  import opened YamlTree
  import opened YamlMerge
  import Text

  ghost predicate DistinctKeys(entries: seq<Entry>) {
    forall i, j :: 0 <= i < j < |entries| ==> entries[i].key.name != entries[j].key.name
  }

  ghost predicate NoBlankKeys(n: Node) {
    n.Mapping? ==> forall i :: 0 <= i < |n.entries| ==> Text.TrimSpace(n.entries[i].key.name) != ""
  }

  /** No key twice in a mapping, at any depth. */
  ghost predicate WellFormed(n: Node)
    decreases n
  {
    match n
    case Scalar(_, _, _) => true
    case Sequence(_, items, _) => forall i :: 0 <= i < |items| ==> WellFormed(items[i])
    case Mapping(_, entries, _) =>
      DistinctKeys(entries) && forall i :: 0 <= i < |entries| ==> WellFormed(entries[i].value)
  }

  /**
   * `out` says what `src` says: equal scalars, items one by one, and under each source key a
   * faithful value, or nothing where the value may be left out. A null may stand for an empty sequence.
   */
  ghost predicate Faithful(path: Path, out: Node, src: Node)
    decreases src, 1
  {
    match src
    case Scalar(tag, text, _) => out.Scalar? && out.tag == tag && out.text == text
    case Sequence(_, items, _) =>
      || (items == [] && out.Scalar? && out.tag == "!!null")
      || (&& out.Sequence? && |out.items| == |items|
          && forall i :: 0 <= i < |items| ==> Faithful(path, out.items[i], items[i]))
    case Mapping(_, entries, _) =>
      out.Mapping? && forall i :: 0 <= i < |entries| ==> FaithfulUnder(path, out.entries, entries[i])
  }

  ghost predicate FaithfulUnder(path: Path, out: seq<Entry>, e: Entry)
    decreases e, 2
  {
    var child := path + [e.key.name];
    match Find(out, e.key.name)
    case Some(v) => Faithful(child, v, e.value)
    case None => Omittable(child, e.value)
  }

  // ----- looking keys up

  lemma {:induction false} FindSetFirst(entries: seq<Entry>, name: string, v: Node, other: string)
    ensures Find(SetFirst(entries, name, v), other)
         == if other == name && Find(entries, name).Some? then Some(v) else Find(entries, other)
  {
    if entries != [] {
      if entries[0].key.name == name {
        assert ([Entry(entries[0].key, v)] + entries[1..])[1..] == entries[1..];
      } else {
        FindSetFirst(entries[1..], name, v, other);
        assert ([entries[0]] + SetFirst(entries[1..], name, v))[1..] == SetFirst(entries[1..], name, v);
      }
    }
  }

  lemma {:induction false} FindConcat(a: seq<Entry>, b: seq<Entry>, name: string)
    ensures Find(a + b, name) == if Find(a, name).Some? then Find(a, name) else Find(b, name)
  {
    if a == [] {
      assert a + b == b;
    } else {
      FindConcat(a[1..], b, name);
      assert (a + b)[1..] == a[1..] + b;
    }
  }

  lemma {:induction false} FindDistinct(entries: seq<Entry>, i: nat)
    requires i < |entries| && DistinctKeys(entries)
    ensures Find(entries, entries[i].key.name) == Some(entries[i].value)
  {
    if i > 0 {
      assert entries[1..][i - 1] == entries[i];
      FindDistinct(entries[1..], i - 1);
    }
  }

  lemma {:induction false} FindAbsent(entries: seq<Entry>, name: string)
    ensures Find(entries, name).Some? <==> exists i :: 0 <= i < |entries| && entries[i].key.name == name
  {
    if entries != [] && entries[0].key.name != name {
      FindAbsent(entries[1..], name);
      if Find(entries[1..], name).Some? {
        var i :| 0 <= i < |entries[1..]| && entries[1..][i].key.name == name;
        assert entries[i + 1].key.name == name;
      } else {
        forall i | 0 <= i < |entries| ensures entries[i].key.name != name {
          assert i > 0 ==> entries[i] == entries[1..][i - 1];
        }
      }
    }
  }

  lemma {:induction false} FindKept(entries: seq<Entry>, keep: set<string>, name: string)
    ensures Find(KeepKeys(entries, keep), name)
         == if Text.TrimSpace(name) in keep then Find(entries, name) else None
  {
    if entries != [] {
      FindKept(entries[1..], keep, name);
      FindConcat(if Text.TrimSpace(entries[0].key.name) in keep then [entries[0]] else [], KeepKeys(entries[1..], keep), name);
    }
  }

  lemma {:induction false} FindPruned(path: Path, entries: seq<Entry>, i: nat)
    requires i < |entries| && DistinctKeys(entries)
    ensures Find(PruneEntries(path, entries), entries[i].key.name) == Find(PruneEntry(path, entries[i]), entries[i].key.name)
  {
    var name := entries[i].key.name;
    var rest := entries[1..];
    FindConcat(PruneEntry(path, entries[0]), PruneEntries(path, rest), name);
    if i > 0 {
      assert rest[i - 1] == entries[i];
      FindPruned(path, rest, i - 1);
    } else {
      FindAbsent(rest, name);
      PrunedKeysAmong(path, rest, name);
    }
  }

  lemma {:induction false} PrunedKeysAmong(path: Path, entries: seq<Entry>, name: string)
    ensures Find(entries, name).None? ==> Find(PruneEntries(path, entries), name).None?
  {
    if entries != [] {
      PrunedKeysAmong(path, entries[1..], name);
      FindConcat(PruneEntry(path, entries[0]), PruneEntries(path, entries[1..]), name);
    }
  }

  // ----- faithfulness

  lemma {:induction false} FaithfulToItself(path: Path, n: Node)
    requires WellFormed(n)
    ensures Faithful(path, n, n)
    decreases n
  {
    match n
    case Scalar(_, _, _) =>
    case Sequence(_, items, _) =>
      forall i | 0 <= i < |items| ensures Faithful(path, items[i], items[i]) {
        FaithfulToItself(path, items[i]);
      }
    case Mapping(_, entries, _) =>
      forall i | 0 <= i < |entries| ensures FaithfulUnder(path, entries, entries[i]) {
        FindDistinct(entries, i);
        FaithfulToItself(path + [entries[i].key.name], entries[i].value);
      }
  }

  /** Dropping default-valued descendants of a new value loses nothing but omittable values. */
  lemma {:induction false} PruneFaithful(path: Path, n: Node)
    requires WellFormed(n)
    ensures Faithful(path, PruneDefaults(path, n), n)
    decreases n
  {
    match n
    case Scalar(_, _, _) =>
    case Sequence(_, items, _) =>
      forall i | 0 <= i < |items| ensures Faithful(path, PruneDefaults(path, items[i]), items[i]) {
        PruneFaithful(path, items[i]);
      }
    case Mapping(_, entries, _) =>
      forall i | 0 <= i < |entries| ensures FaithfulUnder(path, PruneEntries(path, entries), entries[i]) {
        var e := entries[i];
        var child := path + [e.key.name];
        FindPruned(path, entries, i);
        PruneFaithful(child, e.value);
        PrunedZeroIffHollow(child, e.value);
        if IsZero(e.value) {
          ZeroIsHollow(child, e.value);
        }
        assert IsEmptyCollection(PruneDefaults(child, e.value)) ==> IsZero(PruneDefaults(child, e.value));
      }
  }

  /** Nothing that has to be written stands under a blank key. */
  ghost predicate BlanksOmittable(path: Path, src: Node) {
    src.Mapping? ==>
      forall i :: 0 <= i < |src.entries| && Text.TrimSpace(src.entries[i].key.name) == ""
                  ==> Omittable(path + [src.entries[i].key.name], src.entries[i].value)
  }

  /** Pruning the keys the source lacks keeps an item faithful exactly in that case. */
  lemma PruneMissingFaithfulIff(path: Path, out: Node, src: Node)
    requires out.Mapping? && src.Mapping? && Faithful(path, out, src)
    ensures Faithful(path, PruneMissing(out, src), src) <==> BlanksOmittable(path, src)
  {
    forall i | 0 <= i < |src.entries|
      ensures FaithfulUnder(path, PruneMissing(out, src).entries, src.entries[i])
         <==> (Text.TrimSpace(src.entries[i].key.name) == ""
               ==> Omittable(path + [src.entries[i].key.name], src.entries[i].value))
    {
      assert FaithfulUnder(path, out.entries, src.entries[i]);
      FindKept(out.entries, KeptKeys(src.entries), src.entries[i].key.name);
    }
  }

  /** A key not mentioned keeps its value untouched. */
  lemma MergeEntryOther(dst: seq<Entry>, e: Entry, path: Path, name: string)
    requires name != e.key.name
    ensures Find(MergeEntry(dst, e, path), name) == Find(dst, name)
  {
    var child := path + [e.key.name];
    match Find(dst, e.key.name)
    case Some(present) => FindSetFirst(dst, e.key.name, MergeNode(present, e.value, child), name);
    case None => FindConcat(dst, [Entry(e.key, PruneDefaults(child, e.value))], name);
  }

  lemma {:induction false} UnmentionedKeysUntouched(dst: seq<Entry>, src: seq<Entry>, path: Path, name: string)
    requires forall i :: 0 <= i < |src| ==> src[i].key.name != name
    ensures Find(MergeEntries(dst, src, path), name) == Find(dst, name)
  {
    if src != [] {
      UnmentionedKeysUntouched(dst, src[..|src| - 1], path, name);
      MergeEntryOther(MergeEntries(dst, src[..|src| - 1], path), src[|src| - 1], path, name);
    }
  }

  /** A key new to the destination is written exactly when its value may not be left out. */
  lemma {:induction false} NewKeyWrittenIff(dst: seq<Entry>, src: seq<Entry>, path: Path, k: nat)
    requires DistinctKeys(src) && k < |src| && Find(dst, src[k].key.name).None?
    ensures Find(MergeEntries(dst, src, path), src[k].key.name).Some?
       <==> !Omittable(path + [src[k].key.name], src[k].value)
  {
    var rest := src[..|src| - 1];
    var last := src[|src| - 1];
    var so := MergeEntries(dst, rest, path);
    if k < |rest| {
      assert rest[k] == src[k];
      NewKeyWrittenIff(dst, rest, path, k);
      MergeEntryOther(so, last, path, src[k].key.name);
    } else {
      UnmentionedKeysUntouched(dst, rest, path, last.key.name);
      var child := path + [last.key.name];
      PrunedDefaultIffOmittable(child, last.value);
      FindConcat(so, [Entry(last.key, PruneDefaults(child, last.value))], last.key.name);
    }
  }

  // ----- when merging is faithful

  predicate IsBlank(e: Entry) {
    Text.TrimSpace(e.key.name) == ""
  }

  /**
   * Nothing of the source is lost on the way through a destination: scalars, copied items and new keys
   * never are; an item matched to an old one must have nothing that matters under a blank key.
   */
  ghost predicate Keeps(dst: Node, src: Node, path: Path)
    decreases src, 1
  {
    match src
    case Scalar(_, _, _) => true
    case Sequence(_, items, _) =>
      var original := if dst.Sequence? then dst.items else [];
      forall i :: 0 <= i < |items| ==> KeepsItem(original, Matching(original, items)[i], items[i], path)
    case Mapping(_, entries, _) =>
      var base := if dst.Mapping? then dst.entries else entries;
      forall i :: 0 <= i < |entries| ==> KeepsUnder(base, entries[i], path)
  }

  ghost predicate KeepsItem(original: seq<Node>, index: int, src: Node, path: Path)
    requires -1 <= index < |original|
    decreases src, 3
  {
    index < 0 || MatchedKeeps(original[index], src, path)
  }

  /** An old item with a new one matched to it, which then loses its blank keys. */
  ghost predicate MatchedKeeps(dst: Node, src: Node, path: Path)
    decreases src, 2
  {
    if src.Mapping? then
      var base := if dst.Mapping? then dst.entries else src.entries;
      forall i :: 0 <= i < |src.entries| ==>
        if IsBlank(src.entries[i]) then Omittable(path + [src.entries[i].key.name], src.entries[i].value)
        else KeepsUnder(base, src.entries[i], path)
    else Keeps(dst, src, path)
  }

  ghost predicate KeepsUnder(base: seq<Entry>, e: Entry, path: Path)
    decreases e, 2
  {
    Find(base, e.key.name).Some? ==> Keeps(Find(base, e.key.name).value, e.value, path + [e.key.name])
  }

  /** Merging makes the destination say what the source says if and only if nothing is lost on the way. */
  lemma {:induction false} MergeFaithfulIff(dst: Node, src: Node, path: Path)
    requires WellFormed(src)
    ensures Faithful(path, MergeNode(dst, src, path), src) <==> Keeps(dst, src, path)
    decreases src, 1
  {
    match src
    case Scalar(_, _, _) =>
    case Sequence(_, items, _) =>
      var original := if dst.Sequence? then dst.items else [];
      var m := Matching(original, items);
      forall i | 0 <= i < |items|
        ensures Faithful(path, MergeItem(original, m[i], items[i], path), items[i])
           <==> KeepsItem(original, m[i], items[i], path)
      {
        MergeItemFaithfulIff(original, m[i], items[i], path);
      }
      SequenceFaithful(dst, src, path);
    case Mapping(_, entries, _) =>
      MergeEntriesFaithfulIff(if dst.Mapping? then dst.entries else entries, entries, path);
  }

  lemma SequenceFaithful(dst: Node, src: Node, path: Path)
    requires src.Sequence?
    ensures var original := if dst.Sequence? then dst.items else [];
      var m := Matching(original, src.items);
      Faithful(path, MergeNode(dst, src, path), src)
      <==> forall i :: 0 <= i < |src.items| ==>
             Faithful(path, MergeItem(original, m[i], src.items[i], path), src.items[i])
  {
  }

  lemma {:induction false} MergeItemFaithfulIff(original: seq<Node>, index: int, src: Node, path: Path)
    requires -1 <= index < |original| && WellFormed(src)
    ensures Faithful(path, MergeItem(original, index, src, path), src) <==> KeepsItem(original, index, src, path)
    decreases src, 3
  {
    if index < 0 {
      FaithfulToItself(path, src);
    } else if src.Mapping? {
      var base := if original[index].Mapping? then original[index].entries else src.entries;
      MergeEntriesFaithfulIff(base, src.entries, path);
      PrunedItemFaithfulIff(original[index], src, base, path);
    } else {
      MergeFaithfulIff(original[index], src, path);
    }
  }

  /** Pruning drops the blank keys of a matched item and no others. */
  lemma PrunedItemFaithfulIff(dst: Node, src: Node, base: seq<Entry>, path: Path)
    requires src.Mapping? && base == if dst.Mapping? then dst.entries else src.entries
    requires forall i :: 0 <= i < |src.entries| ==>
      (FaithfulUnder(path, MergeEntries(base, src.entries, path), src.entries[i]) <==> KeepsUnder(base, src.entries[i], path))
    ensures Faithful(path, PruneMissing(MergeNode(dst, src, path), src), src) <==> MatchedKeeps(dst, src, path)
  {
    var merged := MergeEntries(base, src.entries, path);
    var kept := KeepKeys(merged, KeptKeys(src.entries));
    assert PruneMissing(MergeNode(dst, src, path), src).entries == kept;
    forall i | 0 <= i < |src.entries|
      ensures FaithfulUnder(path, kept, src.entries[i])
         <==> if IsBlank(src.entries[i]) then Omittable(path + [src.entries[i].key.name], src.entries[i].value)
              else KeepsUnder(base, src.entries[i], path)
    {
      FindKept(merged, KeptKeys(src.entries), src.entries[i].key.name);
    }
  }

  lemma {:induction false} MergeEntriesFaithfulIff(dst: seq<Entry>, src: seq<Entry>, path: Path)
    requires DistinctKeys(src) && forall i :: 0 <= i < |src| ==> WellFormed(src[i].value)
    ensures forall i :: 0 <= i < |src| ==>
      (FaithfulUnder(path, MergeEntries(dst, src, path), src[i]) <==> KeepsUnder(dst, src[i], path))
    decreases src, 0
  {
    if src != [] {
      var last, rest := src[|src| - 1], src[..|src| - 1];
      var before := MergeEntries(dst, rest, path);
      MergeEntriesFaithfulIff(dst, rest, path);
      UnmentionedKeysUntouched(dst, rest, path, last.key.name);
      MergeEntryFaithfulIff(before, last, path);
      forall i | 0 <= i < |rest|
        ensures FaithfulUnder(path, MergeEntries(dst, src, path), src[i]) <==> KeepsUnder(dst, src[i], path)
      {
        assert rest[i] == src[i];
        MergeEntryOther(before, last, path, src[i].key.name);
      }
    }
  }

  lemma {:induction false} MergeEntryFaithfulIff(dst: seq<Entry>, e: Entry, path: Path)
    requires WellFormed(e.value)
    ensures FaithfulUnder(path, MergeEntry(dst, e, path), e) <==> KeepsUnder(dst, e, path)
    decreases e, 2
  {
    var child := path + [e.key.name];
    match Find(dst, e.key.name)
    case Some(present) =>
      FindSetFirst(dst, e.key.name, MergeNode(present, e.value, child), e.key.name);
      MergeFaithfulIff(present, e.value, child);
    case None =>
      PruneFaithful(child, e.value);
      PrunedDefaultIffOmittable(child, e.value);
      FindConcat(dst, [Entry(e.key, PruneDefaults(child, e.value))], e.key.name);
  }

  /** No item of a sequence, at any depth, has a blank key. */
  ghost predicate NoBlankItems(n: Node)
    decreases n
  {
    match n
    case Scalar(_, _, _) => true
    case Sequence(_, items, _) => forall i :: 0 <= i < |items| ==> NoBlankKeys(items[i]) && NoBlankItems(items[i])
    case Mapping(_, entries, _) => forall i :: 0 <= i < |entries| ==> NoBlankItems(entries[i].value)
  }

  lemma {:induction false} NoBlankItemsKeep(dst: Node, src: Node, path: Path)
    requires NoBlankItems(src)
    ensures Keeps(dst, src, path) && (NoBlankKeys(src) ==> MatchedKeeps(dst, src, path))
    decreases src
  {
    match src
    case Scalar(_, _, _) =>
    case Sequence(_, items, _) =>
      var original := if dst.Sequence? then dst.items else [];
      var m := Matching(original, items);
      forall i | 0 <= i < |items| ensures KeepsItem(original, m[i], items[i], path) {
        if m[i] >= 0 {
          NoBlankItemsKeep(original[m[i]], items[i], path);
        }
      }
    case Mapping(_, entries, _) =>
      var base := if dst.Mapping? then dst.entries else entries;
      forall i | 0 <= i < |entries| ensures KeepsUnder(base, entries[i], path) {
        var e := entries[i];
        if Find(base, e.key.name).Some? {
          NoBlankItemsKeep(Find(base, e.key.name).value, e.value, path + [e.key.name]);
        }
      }
  }

  /** So without blank keys in items the merge is faithful whatever the destination said before. */
  lemma MergeFaithful(dst: Node, src: Node, path: Path)
    requires WellFormed(src) && NoBlankItems(src)
    ensures Faithful(path, MergeNode(dst, src, path), src)
  {
    NoBlankItemsKeep(dst, src, path);
    MergeFaithfulIff(dst, src, path);
  }

  /** A merged node has the source's kind, and its tag where the kind is new; a null may stand for an empty sequence. */
  lemma MergedTag(dst: Node, src: Node, path: Path)
    ensures var out := MergeNode(dst, src, path);
      match src
      case Scalar(tag, _, _) => out.Scalar? && out.tag == tag
      case Sequence(_, items, _) =>
        || (dst.Scalar? && dst.tag == "!!null" && items == [] && out == dst)
        || (out.Sequence? && out.tag == if dst.Sequence? then dst.tag else "!!seq")
      case Mapping(tag, _, _) => out.Mapping? && out.tag == if dst.Mapping? then dst.tag else tag
  {
  }

  // ----- order and comments

  /** The old keys stay first, in order and with their comments; so do the comments of their values. */
  ghost predicate Preserves(before: Node, after: Node)
    decreases before
  {
    && after.note == before.note
    && (before.Mapping? && after.Mapping? ==>
          && |before.entries| <= |after.entries|
          && forall i :: 0 <= i < |before.entries| ==>
               && after.entries[i].key == before.entries[i].key
               && Preserves(before.entries[i].value, after.entries[i].value))
  }

  lemma {:induction false} PreservesItself(n: Node)
    ensures Preserves(n, n)
    decreases n
  {
    if n.Mapping? {
      forall i | 0 <= i < |n.entries| ensures Preserves(n.entries[i].value, n.entries[i].value) {
        PreservesItself(n.entries[i].value);
      }
    }
  }

  lemma {:induction false} SetFirstAt(entries: seq<Entry>, name: string, v: Node, i: nat)
    requires i < |entries|
    ensures |SetFirst(entries, name, v)| == |entries|
    ensures var e := SetFirst(entries, name, v)[i];
            && e.key == entries[i].key
            && (|| e.value == entries[i].value
                || (e.key.name == name && e.value == v && Find(entries, name) == Some(entries[i].value)))
  {
    if entries[0].key.name != name && i > 0 {
      SetFirstAt(entries[1..], name, v, i - 1);
    } else if entries[0].key.name != name {
      SetFirstLength(entries[1..], name, v);
    }
  }

  lemma {:induction false} SetFirstLength(entries: seq<Entry>, name: string, v: Node)
    ensures |SetFirst(entries, name, v)| == |entries|
  {
    if entries != [] && entries[0].key.name != name {
      SetFirstLength(entries[1..], name, v);
    }
  }

  /** Each old entry stays at its place, and its value is the old one or the old one merged once. */
  lemma {:induction false} MergedEntryAt(dst: seq<Entry>, src: seq<Entry>, path: Path, i: nat)
    requires DistinctKeys(src) && i < |dst|
    ensures var out := MergeEntries(dst, src, path);
            && |dst| <= |out| && out[i].key == dst[i].key
            && (|| out[i].value == dst[i].value
                || exists k :: 0 <= k < |src| && MergedFrom(dst[i], src[k], path, out[i].value))
  {
    if src != [] {
      var rest := src[..|src| - 1];
      var last := src[|src| - 1];
      var so := MergeEntries(dst, rest, path);
      MergedEntryAt(dst, rest, path, i);
      if Find(so, last.key.name).Some? {
        var v := MergeNode(Find(so, last.key.name).value, last.value, path + [last.key.name]);
        SetFirstAt(so, last.key.name, v, i);
        if so[i].value != dst[i].value {
          var k :| 0 <= k < |rest| && MergedFrom(dst[i], rest[k], path, so[i].value);
          assert src[k] == rest[k];
          assert dst[i].key.name != last.key.name;
        } else if SetFirst(so, last.key.name, v)[i].value != so[i].value {
          assert MergedFrom(dst[i], src[|src| - 1], path, v);
        }
      } else if so[i].value != dst[i].value {
        var k :| 0 <= k < |rest| && MergedFrom(dst[i], rest[k], path, so[i].value);
        assert src[k] == rest[k];
      }
    }
  }

  ghost predicate MergedFrom(was: Entry, e: Entry, path: Path, v: Node) {
    e.key.name == was.key.name && v == MergeNode(was.value, e.value, path + [e.key.name])
  }

  /** Merging keeps the destination's keys in order, and every comment at a key that stays. */
  lemma {:induction false} MergePreserves(dst: Node, src: Node, path: Path)
    requires WellFormed(src)
    ensures Preserves(dst, MergeNode(dst, src, path))
    decreases src
  {
    if dst.Mapping? && src.Mapping? {
      var out := MergeEntries(dst.entries, src.entries, path);
      forall i | 0 <= i < |dst.entries|
        ensures |dst.entries| <= |out| && out[i].key == dst.entries[i].key
        ensures Preserves(dst.entries[i].value, out[i].value)
      {
        MergedEntryAt(dst.entries, src.entries, path, i);
        if out[i].value == dst.entries[i].value {
          PreservesItself(dst.entries[i].value);
        } else {
          var k :| 0 <= k < |src.entries| && MergedFrom(dst.entries[i], src.entries[k], path, out[i].value);
          MergePreserves(dst.entries[i].value, src.entries[k].value, path + [src.entries[k].key.name]);
        }
      }
      MergedLength(dst.entries, src.entries, path);
    } else if dst.Scalar? && src.Sequence? && dst.tag == "!!null" && src.items == [] {
      PreservesItself(dst);
    }
  }

  lemma {:induction false} MergedLength(dst: seq<Entry>, src: seq<Entry>, path: Path)
    ensures |dst| <= |MergeEntries(dst, src, path)|
  {
    if src != [] {
      var so := MergeEntries(dst, src[..|src| - 1], path);
      MergedLength(dst, src[..|src| - 1], path);
      var last := src[|src| - 1];
      if Find(so, last.key.name).Some? {
        SetFirstLength(so, last.key.name, MergeNode(Find(so, last.key.name).value, last.value, path + [last.key.name]));
      }
    }
  }

  // ----- sequences

  /**
   * A merged sequence has the source's length and order; each item is the source's own, or the one
   * original matched to it, which then keeps its comments and only keys the source has.
   */
  lemma MergedSequence(original: seq<Node>, src: seq<Node>, path: Path, i: nat)
    requires i < |src| && WellFormed(src[i])
    ensures var m := Matching(original, src);
            var out := MergeItems(original, src, path);
            && |out| == |src|
            && (Faithful(path, out[i], src[i]) <==> KeepsItem(original, m[i], src[i], path))
            && (m[i] < 0 ==> out[i] == src[i])
            && (m[i] >= 0 ==> out[i].note == original[m[i]].note)
            && (out[i].Mapping? && src[i].Mapping? ==> KeysAmong(out[i].entries, src[i].entries))
  {
    var m := Matching(original, src);
    MergeItemFaithfulIff(original, m[i], src[i], path);
    if src[i].Mapping? {
      AmongItself(src[i].entries);
    }
    if m[i] >= 0 {
      MergePreserves(original[m[i]], src[i], path);
      var merged := MergeNode(original[m[i]], src[i], path);
      if merged.Mapping? && src[i].Mapping? {
        KeptAmong(merged.entries, src[i].entries);
      }
    }
  }

  ghost predicate HasTrimmedKey(src: seq<Entry>, k: string) {
    exists j :: 0 <= j < |src| && Text.TrimSpace(src[j].key.name) == k
  }

  /** Every key of `out` is, up to surrounding blanks, a key of `src`. */
  ghost predicate KeysAmong(out: seq<Entry>, src: seq<Entry>) {
    forall i :: 0 <= i < |out| ==> HasTrimmedKey(src, Text.TrimSpace(out[i].key.name))
  }

  lemma {:induction false} KeptAmong(entries: seq<Entry>, src: seq<Entry>)
    ensures KeysAmong(KeepKeys(entries, KeptKeys(src)), src)
  {
    if entries != [] {
      KeptAmong(entries[1..], src);
      var head := Text.TrimSpace(entries[0].key.name);
      assert head in KeptKeys(src) ==> HasTrimmedKey(src, head);
      var out := KeepKeys(entries, KeptKeys(src));
      var rest := KeepKeys(entries[1..], KeptKeys(src));
      forall i | 0 <= i < |out| ensures HasTrimmedKey(src, Text.TrimSpace(out[i].key.name)) {
        assert out == rest || (head in KeptKeys(src) && out == [entries[0]] + rest);
      }
    }
  }

  lemma AmongItself(src: seq<Entry>)
    ensures KeysAmong(src, src)
  {
  }

  // ----- only the source's keys, at every depth

  /** At every depth, a mapping that is an item of a sequence has only keys its source item has. */
  ghost predicate OnlySourceKeys(out: Node, src: Node)
    decreases src, 1
  {
    match src
    case Scalar(_, _, _) => true
    case Sequence(_, items, _) =>
      out.Sequence? && |out.items| == |items| ==>
        forall i :: 0 <= i < |items| ==>
          && (out.items[i].Mapping? && items[i].Mapping? ==> KeysAmong(out.items[i].entries, items[i].entries))
          && OnlySourceKeys(out.items[i], items[i])
    case Mapping(_, entries, _) =>
      out.Mapping? ==> forall i :: 0 <= i < |entries| ==> OnlyUnder(out.entries, entries[i])
  }

  ghost predicate OnlyUnder(out: seq<Entry>, e: Entry)
    decreases e, 2
  {
    Find(out, e.key.name).Some? ==> OnlySourceKeys(Find(out, e.key.name).value, e.value)
  }

  lemma {:induction false} ItselfOnly(n: Node)
    requires WellFormed(n)
    ensures OnlySourceKeys(n, n)
    decreases n
  {
    match n
    case Scalar(_, _, _) =>
    case Sequence(_, items, _) =>
      forall i | 0 <= i < |items|
        ensures OnlySourceKeys(items[i], items[i]) && (items[i].Mapping? ==> KeysAmong(items[i].entries, items[i].entries))
      {
        ItselfOnly(items[i]);
        if items[i].Mapping? {
          AmongItself(items[i].entries);
        }
      }
    case Mapping(_, entries, _) =>
      forall i | 0 <= i < |entries| ensures OnlyUnder(entries, entries[i]) {
        FindDistinct(entries, i);
        ItselfOnly(entries[i].value);
      }
  }

  lemma {:induction false} PrunedKeys(path: Path, entries: seq<Entry>)
    ensures KeysAmong(PruneEntries(path, entries), entries)
  {
    if entries != [] {
      var rest := PruneEntries(path, entries[1..]);
      var out := PruneEntries(path, entries);
      PrunedKeys(path, entries[1..]);
      AmongWider(rest, entries[1..], entries);
      forall i | 0 <= i < |out| ensures HasTrimmedKey(entries, Text.TrimSpace(out[i].key.name)) {
        var n := |PruneEntry(path, entries[0])|;
        if i < n {
          assert out[i].key == entries[0].key;
        } else {
          assert out[i] == rest[i - n];
        }
      }
    }
  }

  lemma AmongWider(out: seq<Entry>, part: seq<Entry>, src: seq<Entry>)
    requires KeysAmong(out, part) && forall e :: e in part ==> e in src
    ensures KeysAmong(out, src)
  {
    forall i | 0 <= i < |out| ensures HasTrimmedKey(src, Text.TrimSpace(out[i].key.name)) {
      var j :| 0 <= j < |part| && Text.TrimSpace(part[j].key.name) == Text.TrimSpace(out[i].key.name);
      assert part[j] in src;
    }
  }

  lemma {:induction false} PruneOnly(path: Path, n: Node)
    requires WellFormed(n)
    ensures OnlySourceKeys(PruneDefaults(path, n), n)
    decreases n
  {
    match n
    case Scalar(_, _, _) =>
    case Sequence(_, items, _) =>
      forall i | 0 <= i < |items|
        ensures OnlySourceKeys(PruneDefaults(path, items[i]), items[i])
        ensures items[i].Mapping? ==> KeysAmong(PruneDefaults(path, items[i]).entries, items[i].entries)
      {
        PruneOnly(path, items[i]);
        if items[i].Mapping? {
          PrunedKeys(path, items[i].entries);
        }
      }
    case Mapping(_, entries, _) =>
      forall i | 0 <= i < |entries| ensures OnlyUnder(PruneEntries(path, entries), entries[i]) {
        FindPruned(path, entries, i);
        PruneOnly(path + [entries[i].key.name], entries[i].value);
      }
  }

  /** Merging leaves no item of a sequence, at whatever depth, a key that the source's item lacks. */
  lemma {:induction false} MergeOnlySourceKeys(dst: Node, src: Node, path: Path)
    requires WellFormed(src)
    ensures OnlySourceKeys(MergeNode(dst, src, path), src)
    decreases src, 1
  {
    match src
    case Scalar(_, _, _) =>
    case Sequence(_, items, _) =>
      if !(dst.Scalar? && dst.tag == "!!null" && items == []) {
        var original := if dst.Sequence? then dst.items else [];
        var m := Matching(original, items);
        forall i | 0 <= i < |items|
          ensures OnlySourceKeys(MergeItem(original, m[i], items[i], path), items[i])
          ensures var out := MergeItem(original, m[i], items[i], path);
            out.Mapping? && items[i].Mapping? ==> KeysAmong(out.entries, items[i].entries)
        {
          MergeItemOnly(original, m[i], items[i], path);
        }
      }
    case Mapping(_, entries, _) =>
      MergeEntriesOnly(if dst.Mapping? then dst.entries else entries, entries, path);
  }

  lemma {:induction false} MergeItemOnly(original: seq<Node>, index: int, src: Node, path: Path)
    requires -1 <= index < |original| && WellFormed(src)
    ensures var out := MergeItem(original, index, src, path);
      && OnlySourceKeys(out, src)
      && (out.Mapping? && src.Mapping? ==> KeysAmong(out.entries, src.entries))
    decreases src, 2
  {
    if index < 0 {
      ItselfOnly(src);
      if src.Mapping? {
        AmongItself(src.entries);
      }
    } else {
      var merged := MergeNode(original[index], src, path);
      MergeOnlySourceKeys(original[index], src, path);
      if merged.Mapping? && src.Mapping? {
        KeptAmong(merged.entries, src.entries);
        KeptOnly(merged, src);
      }
    }
  }

  lemma KeptOnly(merged: Node, src: Node)
    requires merged.Mapping? && src.Mapping? && OnlySourceKeys(merged, src)
    ensures OnlySourceKeys(PruneMissing(merged, src), src)
  {
    forall i | 0 <= i < |src.entries| ensures OnlyUnder(PruneMissing(merged, src).entries, src.entries[i]) {
      assert OnlyUnder(merged.entries, src.entries[i]);
      FindKept(merged.entries, KeptKeys(src.entries), src.entries[i].key.name);
    }
  }

  lemma {:induction false} MergeEntriesOnly(dst: seq<Entry>, src: seq<Entry>, path: Path)
    requires DistinctKeys(src) && forall i :: 0 <= i < |src| ==> WellFormed(src[i].value)
    ensures forall i :: 0 <= i < |src| ==> OnlyUnder(MergeEntries(dst, src, path), src[i])
    decreases src, 0
  {
    if src != [] {
      var last, rest := src[|src| - 1], src[..|src| - 1];
      MergeEntriesOnly(dst, rest, path);
      MergeEntryOnly(MergeEntries(dst, rest, path), last, path);
      forall i | 0 <= i < |rest| ensures OnlyUnder(MergeEntries(dst, src, path), src[i]) {
        assert rest[i] == src[i];
        MergeEntryOther(MergeEntries(dst, rest, path), last, path, src[i].key.name);
      }
    }
  }

  lemma {:induction false} MergeEntryOnly(dst: seq<Entry>, e: Entry, path: Path)
    requires WellFormed(e.value)
    ensures OnlyUnder(MergeEntry(dst, e, path), e)
    decreases e, 2
  {
    var child := path + [e.key.name];
    match Find(dst, e.key.name)
    case Some(present) =>
      FindSetFirst(dst, e.key.name, MergeNode(present, e.value, child), e.key.name);
      MergeOnlySourceKeys(present, e.value, child);
    case None =>
      PruneOnly(child, e.value);
      FindConcat(dst, [Entry(e.key, PruneDefaults(child, e.value))], e.key.name);
  }

  // ----- a loss

  /** A list of one item, merged into itself: the item is matched to itself. */
  lemma ListKeepsIff(item: Node, list: Node, path: Path)
    requires list == Sequence("!!seq", [item], "")
    ensures Keeps(list, list, path) <==> MatchedKeeps(item, item, path)
  {
    SameStructureReflexive(item);
    assert [item][..0] == [] && Matching([item], []) == [];
    MatchPriority([item], [], item, 0);
    assert list.items[0] == item;
    assert Keeps(list, list, path) <==> KeepsItem(list.items, Matching(list.items, list.items)[0], item, path);
  }

  /** A mapping of one key, merged into itself, keeps what the value under the key keeps. */
  lemma MappingKeepsIff(key: Key, value: Node, root: Node, path: Path)
    requires root == Mapping("!!map", [Entry(key, value)], "")
    ensures Keeps(root, root, path) <==> Keeps(value, value, path + [key.name])
    ensures WellFormed(value) ==> WellFormed(root)
  {
    assert root.entries[0] == Entry(key, value);
    assert KeepsUnder(root.entries, root.entries[0], path) <==> Keeps(value, value, path + [key.name]);
  }

  /** An item with one named scalar and one scalar under a blank key, none of them zero. */
  lemma BlankItemLoses(a: Entry, b: Entry, item: Node, path: Path)
    requires item == Mapping("!!map", [a, b], "") && a.key.name != b.key.name && a.value.Scalar? && b.value.Scalar?
    requires IsBlank(b) && !Omittable(path + [b.key.name], b.value)
    ensures WellFormed(item) && !MatchedKeeps(item, item, path)
  {
    assert item.entries[1] == b;
  }

  /** Saving a configuration over itself loses the value under a blank key of a list's item. */
  lemma BlankKeyIsLost()
    ensures var item := Mapping("!!map", [Entry(Key("id", ""), Scalar("!!str", "a", "")),
                                          Entry(Key("", ""), Scalar("!!str", "b", ""))], "");
            var root := Mapping("!!map", [Entry(Key("xs", ""), Sequence("!!seq", [item], ""))], "");
            !Faithful([], MergeNode(root, root, []), root)
  {
    var a, b := Entry(Key("id", ""), Scalar("!!str", "a", "")), Entry(Key("", ""), Scalar("!!str", "b", ""));
    var item := Mapping("!!map", [a, b], "");
    var list := Sequence("!!seq", [item], "");
    var root := Mapping("!!map", [Entry(Key("xs", ""), list)], "");
    assert !Omittable([] + ["xs"] + [""], b.value);
    BlankItemLoses(a, b, item, [] + ["xs"]);
    ListKeepsIff(item, list, [] + ["xs"]);
    MappingKeepsIff(Key("xs", ""), list, root, []);
    MergeFaithfulIff(root, root, []);
  }
}
