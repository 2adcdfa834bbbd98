/** The update loops themselves, each proved to compute the merge. */
module YamlUpdate {
  import opened Wrappers
  import opened YamlTree
  import opened YamlMerge
  import YamlFaithful
  import YamlOmitted
  import Text

  method MatchSequenceElement(original: seq<Node>, used: array<bool>, target: Node, ghost taken: seq<int>)
    returns (index: int)
    requires used.Length == |original|
    requires forall i :: 0 <= i < |original| ==> (used[i] <==> i in taken)
    ensures index == MatchElement(original, taken, target)
  {
    ghost var sameIdentity := (n: Node) => SameIdentity(n, target);
    ghost var sameStructure := (n: Node) => SameStructure(n, target);
    var byIdentity := match target
      case Mapping(_, _, _) => Identity(target) != ""
      case Scalar(_, text, _) => Text.TrimSpace(text) != ""
      case Sequence(_, _, _) => false;
    if byIdentity {
      for i := 0 to |original|
        invariant First(original, taken, sameIdentity, 0) == First(original, taken, sameIdentity, i)
      {
        if !used[i] && SameIdentity(original[i], target) {
          return i;
        }
      }
    }
    assert First(original, taken, sameIdentity, 0) == -1;
    for i := 0 to |original|
      invariant First(original, taken, sameStructure, 0) == First(original, taken, sameStructure, i)
    {
      if !used[i] && SameStructure(original[i], target) {
        return i;
      }
    }
    return -1;
  }

  /** The original elements in the order the source wants them; a gap is an element new to the sequence. */
  method ReorderSequenceForMerge(original: seq<Node>, src: seq<Node>) returns (ordered: seq<Option<Node>>)
    ensures |ordered| == |src|
    ensures forall i :: 0 <= i < |src| ==>
      var m := Matching(original, src);
      ordered[i] == if m[i] < 0 then None else Some(original[m[i]])
  {
    var used := new bool[|original|](_ => false);
    ghost var taken: seq<int> := [];
    ordered := [];
    for i := 0 to |src|
      invariant taken == Matching(original, src[..i])
      invariant forall k :: 0 <= k < |original| ==> (used[k] <==> k in taken)
      invariant |ordered| == i
      invariant forall k :: 0 <= k < i ==>
        ordered[k] == if taken[k] < 0 then None else Some(original[taken[k]])
    {
      assert src[..i + 1][..i] == src[..i];
      var index := MatchSequenceElement(original, used, src[i], taken);
      if index >= 0 {
        ordered := ordered + [Some(original[index])];
        used[index] := true;
      } else {
        ordered := ordered + [None];
      }
      taken := taken + [index];
    }
    assert src[..|src|] == src;
  }

  method FindMapKeyIndex(entries: seq<Entry>, name: string) returns (index: int)
    ensures -1 <= index < |entries|
    ensures index < 0 ==> Find(entries, name).None?
    ensures index >= 0 ==> Find(entries, name) == Some(entries[index].value)
    ensures index >= 0 ==> forall v :: SetFirst(entries, name, v) == entries[index := Entry(entries[index].key, v)]
  {
    for i := 0 to |entries|
      invariant Find(entries, name) == Find(entries[i..], name)
      invariant forall v :: SetFirst(entries, name, v) == entries[..i] + SetFirst(entries[i..], name, v)
    {
      assert entries[i..][1..] == entries[i + 1..];
      if entries[i].key.name == name {
        forall v ensures SetFirst(entries, name, v) == entries[i := Entry(entries[i].key, v)] {
          assert SetFirst(entries[i..], name, v) == [Entry(entries[i].key, v)] + entries[i + 1..];
        }
        return i;
      }
      forall v ensures SetFirst(entries, name, v) == entries[..i + 1] + SetFirst(entries[i + 1..], name, v) {
        assert SetFirst(entries[i..], name, v) == [entries[i]] + SetFirst(entries[i + 1..], name, v);
        assert entries[..i + 1] == entries[..i] + [entries[i]];
      }
    }
    return -1;
  }

  method PruneMissingMapKeys(dst: seq<Entry>, src: seq<Entry>) returns (out: seq<Entry>)
    ensures out == KeepKeys(dst, KeptKeys(src))
  {
    var keep: set<string> := {};
    for i := 0 to |src|
      invariant keep == KeptKeys(src[..i])
    {
      var key := Text.TrimSpace(src[i].key.name);
      KeptKeysStep(src, i);
      if key != "" {
        keep := keep + {key};
      }
    }
    assert src[..|src|] == src;
    out := dst;
    var i := 0;
    while i < |out|
      invariant 0 <= i <= |out|
      invariant KeepKeys(dst, keep) == out[..i] + KeepKeys(out[i..], keep)
      decreases |out| - i
    {
      assert out[i..][1..] == out[i + 1..];
      if Text.TrimSpace(out[i].key.name) !in keep {
        var shorter := out[..i] + out[i + 1..];
        assert shorter[..i] == out[..i] && shorter[i..] == out[i + 1..];
        out := shorter;
      } else {
        assert out[..i + 1] == out[..i] + [out[i]];
        assert KeepKeys(out[i..], keep) == [out[i]] + KeepKeys(out[i + 1..], keep);
        i := i + 1;
      }
    }
    assert out[..i] == out;
  }

  lemma KeptKeysStep(src: seq<Entry>, i: nat)
    requires i < |src|
    ensures var key := Text.TrimSpace(src[i].key.name);
            KeptKeys(src[..i + 1]) == KeptKeys(src[..i]) + (if key != "" then {key} else {})
  {
    var a, b := src[..i], src[..i + 1];
    var key := Text.TrimSpace(src[i].key.name);
    forall k | k in KeptKeys(b) ensures k in KeptKeys(a) || (key != "" && k == key) {
      var j :| 0 <= j < |b| && Text.TrimSpace(b[j].key.name) == k && k != "";
      assert j < i ==> a[j] == b[j];
    }
    forall k | k in KeptKeys(a) ensures k in KeptKeys(b) {
      var j :| 0 <= j < |a| && Text.TrimSpace(a[j].key.name) == k && k != "";
      assert b[j] == a[j];
    }
    assert b[i] == src[i];
  }

  method MergeMappingPreserve(dst: seq<Entry>, src: seq<Entry>, path: Path) returns (out: seq<Entry>)
    ensures out == MergeEntries(dst, src, path)
    ensures YamlFaithful.DistinctKeys(src) ==> YamlOmitted.WritesNeeded(dst, src, path, out)
    decreases src, 0
  {
    out := dst;
    for i := 0 to |src|
      invariant out == MergeEntries(dst, src[..i], path)
    {
      assert src[..i + 1][..i] == src[..i];
      out := MergeKey(out, src[i], path);
    }
    assert src[..|src|] == src;
    if YamlFaithful.DistinctKeys(src) {
      YamlOmitted.MergeWritesNeeded(dst, src, path, out);
    }
  }

  method MergeKey(dst: seq<Entry>, e: Entry, path: Path) returns (out: seq<Entry>)
    ensures out == MergeEntry(dst, e, path)
    decreases e, 2
  {
    var index := FindMapKeyIndex(dst, e.key.name);
    var childPath := path + [e.key.name];
    if index >= 0 {
      var v := MergeNodePreserve(dst[index].value, e.value, childPath);
      out := dst[index := Entry(dst[index].key, v)];
    } else {
      var candidate := PruneDefaults(childPath, e.value);
      if IsKnownDefault(childPath, candidate) {
        return dst;
      }
      out := dst + [Entry(e.key, candidate)];
    }
  }

  method MergeNodePreserve(dst: Node, src: Node, path: Path) returns (out: Node)
    ensures out == MergeNode(dst, src, path)
    decreases src, 1
  {
    match src {
      case Scalar(tag, text, _) =>
        out := Scalar(tag, text, dst.note);
      case Mapping(tag, entries, _) =>
        var target := dst;
        if !dst.Mapping? {
          target := Mapping(tag, entries, dst.note);
        }
        var merged := MergeMappingPreserve(target.entries, entries, path);
        out := target.(entries := merged);
      case Sequence(_, items, _) =>
        if dst.Scalar? && dst.tag == "!!null" && |items| == 0 {
          return dst;
        }
        var target := dst;
        if !dst.Sequence? {
          target := Sequence("!!seq", [], dst.note);
        }
        var merged := MergeSequence(target.items, items, path);
        out := target.(items := merged);
    }
  }

  method MergeSequence(original: seq<Node>, src: seq<Node>, path: Path) returns (out: seq<Node>)
    ensures out == MergeItems(original, src, path)
    decreases src, 0
  {
    var ordered := ReorderSequenceForMerge(original, src);
    out := [];
    for i := 0 to |src|
      invariant |out| == i
      invariant forall k :: 0 <= k < i ==> out[k] == MergeItems(original, src, path)[k]
    {
      if ordered[i].None? {
        out := out + [src[i]];
      } else {
        var item := MergeNodePreserve(ordered[i].value, src[i], path);
        if item.Mapping? && src[i].Mapping? {
          var kept := PruneMissingMapKeys(item.entries, src[i].entries);
          item := item.(entries := kept);
        }
        out := out + [item];
      }
    }
  }
}
