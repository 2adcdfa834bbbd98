/** Which new keys a merge leaves out, by the tag of their value and by their place in the configuration. */
module YamlOmitted {
  import opened Wrappers
  import opened YamlTree
  import opened YamlMerge
  import opened YamlFaithful

  /** A scalar as it is written in the file. */
  datatype Written = Written(tag: string, text: string)

  /** What the program assumes where the configuration says nothing, by place. */
  const DEFAULTS := map[
    "conversation-log.directory" := Written("!!str", "conversation-logs"),
    "conversation-log.max-file-size-mb" := Written("!!int", "16"),
    "conversation-log.max-total-size-mb" := Written("!!int", "256"),
    "conversation-log.max-entry-bytes" := Written("!!int", "2097152"),
    "error-logs-max-files" := Written("!!int", "10"),
    "pprof.addr" := Written("!!str", "127.0.0.1:8316"),
    "preset-prompt.max-bytes" := Written("!!int", "32768"),
    "remote-management.panel-github-repository" :=
      Written("!!str", "https://github.com/daishuge/playful-proxy-api-panel"),
    "routing.strategy" := Written("!!str", "round-robin")]

  /** What the program assumes at the end of a path. */
  function AssumedAt(path: Path): Option<Written> {
    if path != [] && Dotted(path) in DEFAULTS then Some(DEFAULTS[Dotted(path)]) else None
  }

  lemma ListedIff(path: Path, tag: string, text: string)
    ensures IsListedDefault(path, tag, text) <==> AssumedAt(path) == Some(Written(tag, text))
  {
  }

  /** A section and a key in it stand at the place they spell with a dot between them. */
  lemma Spelled(section: string, name: string)
    ensures Dotted([name]) == name && Dotted([section, name]) == section + "." + name
  {
    assert [section, name][1..] == [name];
  }

  // ----- new keys

  /** A scalar that is not the zero of its kind. */
  predicate Meaningful(n: Node) {
    && n.Scalar?
    && (n.tag == "!!bool" ==> n.text != "false")
    && (n.tag == "!!int" || n.tag == "!!float" ==> n.text != "0" && n.text != "0.0")
    && (n.tag == "!!str" ==> n.text != "")
    && n.tag != "!!null"
  }

  lemma MeaningfulIff(n: Node)
    requires n.Scalar?
    ensures IsZero(n) <==> !Meaningful(n)
  {
  }

  /** A scalar that has to be written at its place. */
  predicate Needed(path: Path, n: Node) {
    Meaningful(n) && AssumedAt(path) != Some(Written(n.tag, n.text))
  }

  lemma NeededIff(path: Path, n: Node)
    requires n.Scalar?
    ensures Omittable(path, n) <==> !Needed(path, n)
  {
    MeaningfulIff(n);
    ListedIff(path, n.tag, n.text);
  }

  /** A new scalar is written exactly if it is neither the zero of its kind nor what is assumed there anyway. */
  lemma NewScalarWrittenIff(dst: seq<Entry>, src: seq<Entry>, path: Path, k: nat)
    requires DistinctKeys(src) && k < |src| && Find(dst, src[k].key.name).None? && src[k].value.Scalar?
    ensures Find(MergeEntries(dst, src, path), src[k].key.name).Some?
       <==> Needed(path + [src[k].key.name], src[k].value)
  {
    NewKeyWrittenIff(dst, src, path, k);
    NeededIff(path + [src[k].key.name], src[k].value);
  }

  /** Of the new scalars exactly the needed ones are written. */
  ghost predicate WritesNeeded(dst: seq<Entry>, src: seq<Entry>, path: Path, out: seq<Entry>) {
    forall k :: 0 <= k < |src| && src[k].value.Scalar? && Find(dst, src[k].key.name).None? ==>
      (Find(out, src[k].key.name).Some? <==> Needed(path + [src[k].key.name], src[k].value))
  }

  lemma MergeWritesNeeded(dst: seq<Entry>, src: seq<Entry>, path: Path, out: seq<Entry>)
    requires DistinctKeys(src) && out == MergeEntries(dst, src, path)
    ensures WritesNeeded(dst, src, path, out)
  {
    forall k | 0 <= k < |src| && src[k].value.Scalar? && Find(dst, src[k].key.name).None?
      ensures Find(out, src[k].key.name).Some? <==> Needed(path + [src[k].key.name], src[k].value)
    {
      NewScalarWrittenIff(dst, src, path, k);
    }
  }

  /** A new list of scalars is written exactly if one of them is not the zero of its kind. */
  lemma NewListWrittenIff(dst: seq<Entry>, src: seq<Entry>, path: Path, k: nat)
    requires DistinctKeys(src) && k < |src| && Find(dst, src[k].key.name).None? && src[k].value.Sequence?
    requires forall i :: 0 <= i < |src[k].value.items| ==> src[k].value.items[i].Scalar?
    ensures Find(MergeEntries(dst, src, path), src[k].key.name).Some?
       <==> exists i :: 0 <= i < |src[k].value.items| && Meaningful(src[k].value.items[i])
  {
    NewKeyWrittenIff(dst, src, path, k);
    forall i | 0 <= i < |src[k].value.items| ensures Hollow(path + [src[k].key.name], src[k].value.items[i])
                                               <==> !Meaningful(src[k].value.items[i]) {
      MeaningfulIff(src[k].value.items[i]);
    }
  }

  /** A new section of scalars is written exactly if one of them has to be. */
  lemma NewSectionWrittenIff(dst: seq<Entry>, src: seq<Entry>, path: Path, k: nat)
    requires DistinctKeys(src) && k < |src| && Find(dst, src[k].key.name).None? && src[k].value.Mapping?
    requires forall i :: 0 <= i < |src[k].value.entries| ==> src[k].value.entries[i].value.Scalar?
    ensures Find(MergeEntries(dst, src, path), src[k].key.name).Some?
       <==> exists i :: 0 <= i < |src[k].value.entries|
              && NeededUnder(path + [src[k].key.name], src[k].value.entries[i])
  {
    NewKeyWrittenIff(dst, src, path, k);
    var child, entries := path + [src[k].key.name], src[k].value.entries;
    forall i | 0 <= i < |entries|
      ensures Omittable(child + [entries[i].key.name], entries[i].value) <==> !NeededUnder(child, entries[i])
    {
      NeededIff(child + [entries[i].key.name], entries[i].value);
    }
  }

  predicate NeededUnder(path: Path, e: Entry) {
    Needed(path + [e.key.name], e.value)
  }

  // ----- what is written of a new value

  /** Keys inside a new value, outside lists of scalars, say something: no zeros, no defaults, nothing empty. */
  ghost predicate Terse(path: Path, n: Node)
    decreases n, 0
  {
    match n
    case Scalar(_, _, _) => true
    case Sequence(_, items, _) => forall i :: 0 <= i < |items| ==> Terse(path, items[i])
    case Mapping(_, entries, _) => forall i :: 0 <= i < |entries| ==> TerseEntry(path, entries[i])
  }

  ghost predicate TerseEntry(path: Path, e: Entry)
    decreases e, 1
  {
    && !IsEmptyCollection(e.value)
    && (e.value.Scalar? ==> Needed(path + [e.key.name], e.value))
    && Terse(path + [e.key.name], e.value)
  }

  lemma {:induction false} PrunedTerse(path: Path, n: Node)
    ensures Terse(path, PruneDefaults(path, n))
    decreases n, 1
  {
    match n
    case Scalar(_, _, _) =>
    case Sequence(_, items, _) =>
      forall i | 0 <= i < |items| ensures Terse(path, PruneDefaults(path, items[i])) {
        PrunedTerse(path, items[i]);
      }
    case Mapping(_, entries, _) => PrunedEntriesTerse(path, entries);
  }

  lemma {:induction false} PrunedEntriesTerse(path: Path, entries: seq<Entry>)
    ensures forall i :: 0 <= i < |PruneEntries(path, entries)| ==> TerseEntry(path, PruneEntries(path, entries)[i])
    decreases entries, 0
  {
    if entries != [] {
      PrunedEntryTerse(path, entries[0]);
      PrunedEntriesTerse(path, entries[1..]);
    }
  }

  lemma {:induction false} PrunedEntryTerse(path: Path, e: Entry)
    ensures forall i :: 0 <= i < |PruneEntry(path, e)| ==> TerseEntry(path, PruneEntry(path, e)[i])
    decreases e, 2
  {
    PrunedTerse(path + [e.key.name], e.value);
    if e.value.Scalar? {
      NeededIff(path + [e.key.name], e.value);
    }
  }

  /** Inside a new value, keys whose values are zero throughout are dropped. */
  lemma PrunedOfZeros(path: Path, entries: seq<Entry>, i: nat)
    requires DistinctKeys(entries) && i < |entries| && IsZero(entries[i].value)
    ensures Find(PruneEntries(path, entries), entries[i].key.name).None?
  {
    FindPruned(path, entries, i);
  }
}
