/** Merging a freshly rendered tree into the one read from disk: what the in-place update computes. */
module YamlMerge {
  import opened Wrappers
  import opened YamlTree
  import Text

  // ----- matching sequence elements

  /** The text of the first scalar under a key, ignoring case and surrounding blanks. */
  function ScalarUnder(entries: seq<Entry>, key: string): string {
    if entries == [] then ""
    else if entries[0].value.Scalar? && Text.ToLower(Text.TrimSpace(entries[0].key.name)) == key
    then Text.TrimSpace(entries[0].value.text)
    else ScalarUnder(entries[1..], key)
  }

  const IDENTITY_KEYS: seq<string> :=
    ["id", "name", "alias", "api-key", "api_key", "apikey", "key", "provider", "model"]

  function IdentityAmong(entries: seq<Entry>, keys: seq<string>): string {
    if keys == [] then ""
    else if ScalarUnder(entries, keys[0]) != "" then keys[0] + "=" + ScalarUnder(entries, keys[0])
    else IdentityAmong(entries, keys[1..])
  }

  function FirstScalarIdentity(entries: seq<Entry>): string {
    if entries == [] then ""
    else
      var e := entries[0];
      if e.value.Scalar? && Text.TrimSpace(e.value.text) != ""
      then Text.ToLower(Text.TrimSpace(e.key.name)) + "=" + Text.TrimSpace(e.value.text)
      else FirstScalarIdentity(entries[1..])
  }

  function Identity(n: Node): string {
    if !n.Mapping? then ""
    else if IdentityAmong(n.entries, IDENTITY_KEYS) != "" then IdentityAmong(n.entries, IDENTITY_KEYS)
    else FirstScalarIdentity(n.entries)
  }

  predicate SameStructure(a: Node, b: Node)
    decreases a
  {
    match a
    case Scalar(_, text, _) => b.Scalar? && Text.TrimSpace(text) == Text.TrimSpace(b.text)
    case Sequence(_, items, _) =>
      && b.Sequence? && |items| == |b.items|
      && forall i :: 0 <= i < |items| ==> SameStructure(items[i], b.items[i])
    case Mapping(_, entries, _) =>
      && b.Mapping? && |entries| == |b.entries|
      && forall i :: 0 <= i < |entries| ==>
           && Text.TrimSpace(entries[i].key.name) == Text.TrimSpace(b.entries[i].key.name)
           && SameStructure(entries[i].value, b.entries[i].value)
  }

  /** Same identity for mappings, same text for scalars. */
  predicate SameIdentity(n: Node, target: Node) {
    match target
    case Mapping(_, _, _) => Identity(target) != "" && n.Mapping? && Identity(n) == Identity(target)
    case Scalar(_, text, _) =>
      Text.TrimSpace(text) != "" && n.Scalar? && Text.TrimSpace(n.text) == Text.TrimSpace(text)
    case Sequence(_, _, _) => false
  }

  /** The first unused index at or after `from` whose node satisfies `p`, or -1. */
  function First(original: seq<Node>, used: seq<int>, p: Node -> bool, from: nat): (r: int)
    requires from <= |original|
    ensures -1 <= r < |original|
    ensures r >= 0 ==> from <= r && r !in used && p(original[r])
    ensures forall i :: from <= i < (if r < 0 then |original| else r) ==> i in used || !p(original[i])
    decreases |original| - from
  {
    if from == |original| then -1
    else if from !in used && p(original[from]) then from
    else First(original, used, p, from + 1)
  }

  function MatchElement(original: seq<Node>, used: seq<int>, target: Node): (r: int)
    ensures -1 <= r < |original|
    ensures r >= 0 ==> r !in used
  {
    var byIdentity := First(original, used, n => SameIdentity(n, target), 0);
    if byIdentity >= 0 then byIdentity else First(original, used, n => SameStructure(n, target), 0)
  }

  /**
   * The unused element a target takes over is the first with its identity or, if there is none, the
   * first with its structure; without either there is no match.
   */
  lemma MatchPriority(original: seq<Node>, used: seq<int>, target: Node, i: nat)
    requires i < |original| && i !in used
    ensures var r := MatchElement(original, used, target);
      && (SameIdentity(original[i], target) ==> 0 <= r <= i && SameIdentity(original[r], target))
      && (SameStructure(original[i], target) ==> r >= 0 && (r <= i || SameIdentity(original[r], target)))
      && (r >= 0 ==> SameIdentity(original[r], target) || SameStructure(original[r], target))
  {
    var byIdentity := First(original, used, n => SameIdentity(n, target), 0);
    var byStructure := First(original, used, n => SameStructure(n, target), 0);
    assert byIdentity < 0 ==> MatchElement(original, used, target) == byStructure;
  }

  /** For each target in turn, the original element it takes over, or -1. */
  function Matching(original: seq<Node>, targets: seq<Node>): (m: seq<int>)
    ensures |m| == |targets|
    ensures forall i :: 0 <= i < |m| ==> -1 <= m[i] < |original|
  {
    if targets == [] then []
    else
      var m := Matching(original, targets[..|targets| - 1]);
      m + [MatchElement(original, m, targets[|targets| - 1])]
  }

  lemma {:induction false} SameStructureReflexive(n: Node)
    ensures SameStructure(n, n)
    decreases n
  {
    match n
    case Scalar(_, _, _) =>
    case Sequence(_, items, _) =>
      forall i | 0 <= i < |items| ensures SameStructure(items[i], items[i]) {
        SameStructureReflexive(items[i]);
      }
    case Mapping(_, entries, _) =>
      forall i | 0 <= i < |entries| ensures SameStructure(entries[i].value, entries[i].value) {
        SameStructureReflexive(entries[i].value);
      }
  }

  /** No original element is taken over twice. */
  lemma {:induction false} MatchingInjective(original: seq<Node>, targets: seq<Node>, i: nat, j: nat)
    requires i < j < |targets|
    ensures var m := Matching(original, targets); m[i] >= 0 ==> m[i] != m[j]
  {
    var m := Matching(original, targets[..|targets| - 1]);
    if j < |targets| - 1 {
      MatchingInjective(original, targets[..|targets| - 1], i, j);
    } else {
      assert m[i] in m;
    }
  }

  // ----- merging

  /** The first occurrence of a key given a new value. */
  function SetFirst(entries: seq<Entry>, name: string, v: Node): seq<Entry> {
    if entries == [] then []
    else if entries[0].key.name == name then [Entry(entries[0].key, v)] + entries[1..]
    else [entries[0]] + SetFirst(entries[1..], name, v)
  }

  function MergeNode(dst: Node, src: Node, path: Path): Node
    decreases src, 1
  {
    match src
    case Scalar(tag, text, _) => Scalar(tag, text, dst.note)
    case Sequence(_, items, _) =>
      if dst.Scalar? && dst.tag == "!!null" && items == [] then dst
      else if dst.Sequence? then Sequence(dst.tag, MergeItems(dst.items, items, path), dst.note)
      else Sequence("!!seq", MergeItems([], items, path), dst.note)
    case Mapping(tag, entries, _) =>
      if dst.Mapping? then Mapping(dst.tag, MergeEntries(dst.entries, entries, path), dst.note)
      else Mapping(tag, MergeEntries(entries, entries, path), dst.note)
  }

  function MergeEntries(dst: seq<Entry>, src: seq<Entry>, path: Path): seq<Entry>
    decreases src, 0
  {
    if src == [] then dst
    else MergeEntry(MergeEntries(dst, src[..|src| - 1], path), src[|src| - 1], path)
  }

  /** An existing key takes the new value in place; a new one is appended unless it may be left out. */
  function MergeEntry(dst: seq<Entry>, e: Entry, path: Path): seq<Entry>
    decreases e, 2
  {
    var child := path + [e.key.name];
    match Find(dst, e.key.name)
    case Some(present) => SetFirst(dst, e.key.name, MergeNode(present, e.value, child))
    case None =>
      var candidate := PruneDefaults(child, e.value);
      if IsKnownDefault(child, candidate) then dst else dst + [Entry(e.key, candidate)]
  }

  function MergeItems(original: seq<Node>, src: seq<Node>, path: Path): seq<Node>
    decreases src, 0
  {
    var m := Matching(original, src);
    seq(|src|, i requires 0 <= i < |src| => MergeItem(original, m[i], src[i], path))
  }

  function MergeItem(original: seq<Node>, index: int, src: Node, path: Path): Node
    requires -1 <= index < |original|
    decreases src, 2
  {
    if index < 0 then src else PruneMissing(MergeNode(original[index], src, path), src)
  }

  function KeptKeys(entries: seq<Entry>): set<string> {
    set i | 0 <= i < |entries| && Text.TrimSpace(entries[i].key.name) != "" :: Text.TrimSpace(entries[i].key.name)
  }

  function KeepKeys(entries: seq<Entry>, keep: set<string>): seq<Entry> {
    if entries == [] then []
    else (if Text.TrimSpace(entries[0].key.name) in keep then [entries[0]] else []) + KeepKeys(entries[1..], keep)
  }

  function PruneMissing(dst: Node, src: Node): Node {
    if dst.Mapping? && src.Mapping? then dst.(entries := KeepKeys(dst.entries, KeptKeys(src.entries))) else dst
  }
}
