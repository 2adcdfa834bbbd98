/** The YAML node tree the configuration is saved from, and the values that may be left out of it. */
module YamlTree {
  import opened Wrappers

  /** Keys and values carry their comments and style as an opaque `note`. */
  datatype Key = Key(name: string, note: string)

  datatype Entry = Entry(key: Key, value: Node)

  datatype Node =
    | Scalar(tag: string, text: string, note: string)
    | Sequence(tag: string, items: seq<Node>, note: string)
    | Mapping(tag: string, entries: seq<Entry>, note: string)

  type Path = seq<string>

  /** The value under the first occurrence of a key. */
  function Find(entries: seq<Entry>, name: string): Option<Node> {
    if entries == [] then None
    else if entries[0].key.name == name then Some(entries[0].value)
    else Find(entries[1..], name)
  }

  function Dotted(path: Path): string {
    if path == [] then ""
    else if |path| == 1 then path[0]
    else path[0] + "." + Dotted(path[1..])
  }

  // ----- defaults

  predicate IsZero(n: Node) {
    match n
    case Scalar(tag, text, _) =>
      if tag == "!!bool" then text == "false"
      else if tag == "!!int" || tag == "!!float" then text == "0" || text == "0.0"
      else if tag == "!!str" then text == ""
      else tag == "!!null"
    case Sequence(_, items, _) => forall i :: 0 <= i < |items| ==> IsZero(items[i])
    case Mapping(_, entries, _) => forall i :: 0 <= i < |entries| ==> IsZero(entries[i].value)
  }

  predicate IsListedDefault(path: Path, tag: string, text: string) {
    var full := Dotted(path);
    if path == [] then false
    else if tag == "!!str" then
      || (full == "conversation-log.directory" && text == "conversation-logs")
      || (full == "pprof.addr" && text == "127.0.0.1:8316")
      || (full == "remote-management.panel-github-repository"
          && text == "https://github.com/daishuge/playful-proxy-api-panel")
      || (full == "routing.strategy" && text == "round-robin")
    else if tag == "!!int" then
      || (full == "conversation-log.max-file-size-mb" && text == "16")
      || (full == "conversation-log.max-total-size-mb" && text == "256")
      || (full == "conversation-log.max-entry-bytes" && text == "2097152")
      || (full == "preset-prompt.max-bytes" && text == "32768")
      || (full == "error-logs-max-files" && text == "10")
    else false
  }

  predicate IsKnownDefault(path: Path, n: Node) {
    IsZero(n) || (n.Scalar? && IsListedDefault(path, n.tag, n.text))
  }

  predicate IsEmptyCollection(n: Node) {
    (n.Sequence? && n.items == []) || (n.Mapping? && n.entries == [])
  }

  /** A new value without its default-valued descendants. Items of sequences are never dropped. */
  function PruneDefaults(path: Path, n: Node): Node
    decreases n, 1
  {
    match n
    case Scalar(_, _, _) => n
    case Sequence(tag, items, note) =>
      Sequence(tag, seq(|items|, i requires 0 <= i < |items| => PruneDefaults(path, items[i])), note)
    case Mapping(tag, entries, note) => Mapping(tag, PruneEntries(path, entries), note)
  }

  function PruneEntries(path: Path, entries: seq<Entry>): seq<Entry>
    decreases entries, 0
  {
    if entries == [] then []
    else PruneEntry(path, entries[0]) + PruneEntries(path, entries[1..])
  }

  /** The entry with its value pruned, or nothing. */
  function PruneEntry(path: Path, e: Entry): seq<Entry>
    decreases e, 2
  {
    var child := path + [e.key.name];
    var pruned := PruneDefaults(child, e.value);
    if IsKnownDefault(child, e.value) || IsEmptyCollection(pruned) then [] else [Entry(e.key, pruned)]
  }

  // ----- what may be left out, stated leaf by leaf

  /** Every leaf of a value under a key is zero or the default listed for its path. */
  predicate Omittable(path: Path, n: Node)
    decreases n, 1
  {
    if n.Scalar? then IsKnownDefault(path, n) else Hollow(path, n)
  }

  /** The same for an item of a sequence, whose own scalars have no path and must be zero. */
  predicate Hollow(path: Path, n: Node)
    decreases n, 0
  {
    match n
    case Scalar(_, _, _) => IsZero(n)
    case Sequence(_, items, _) => forall i :: 0 <= i < |items| ==> Hollow(path, items[i])
    case Mapping(_, entries, _) =>
      forall i :: 0 <= i < |entries| ==> Omittable(path + [entries[i].key.name], entries[i].value)
  }

  lemma {:induction false} ZeroIsHollow(path: Path, n: Node)
    requires IsZero(n)
    ensures Hollow(path, n)
    decreases n
  {
    match n
    case Scalar(_, _, _) =>
    case Sequence(_, items, _) =>
      forall i | 0 <= i < |items| ensures Hollow(path, items[i]) {
        ZeroIsHollow(path, items[i]);
      }
    case Mapping(_, entries, _) =>
      forall i | 0 <= i < |entries| ensures Omittable(path + [entries[i].key.name], entries[i].value) {
        ZeroIsHollow(path + [entries[i].key.name], entries[i].value);
      }
  }

  /** Pruning leaves nothing but zeros exactly when everything in the value may be left out. */
  lemma {:induction false} PrunedZeroIffHollow(path: Path, n: Node)
    ensures IsZero(PruneDefaults(path, n)) <==> Hollow(path, n)
    decreases n, 1
  {
    match n
    case Scalar(_, _, _) =>
    case Sequence(_, items, _) =>
      var pruned := PruneDefaults(path, n).items;
      forall i | 0 <= i < |items| ensures IsZero(pruned[i]) <==> Hollow(path, items[i]) {
        PrunedZeroIffHollow(path, items[i]);
      }
    case Mapping(_, entries, _) => PrunedEntriesZero(path, entries);
  }

  ghost predicate AllZero(entries: seq<Entry>) {
    forall i :: 0 <= i < |entries| ==> IsZero(entries[i].value)
  }

  ghost predicate AllOmittable(path: Path, entries: seq<Entry>) {
    forall i :: 0 <= i < |entries| ==> Omittable(path + [entries[i].key.name], entries[i].value)
  }

  lemma {:induction false} PrunedEntriesZero(path: Path, entries: seq<Entry>)
    ensures AllZero(PruneEntries(path, entries)) <==> AllOmittable(path, entries)
    decreases entries, 0
  {
    if entries != [] {
      var first := PruneEntry(path, entries[0]);
      var rest := PruneEntries(path, entries[1..]);
      PrunedEntryZero(path, entries[0]);
      PrunedEntriesZero(path, entries[1..]);
      assert AllZero(first + rest) <==> AllZero(first) && AllZero(rest) by {
        assert forall i :: 0 <= i < |first| ==> first[i] == (first + rest)[i];
        assert forall i :: 0 <= i < |rest| ==> rest[i] == (first + rest)[|first| + i];
      }
      assert entries == [entries[0]] + entries[1..];
      assert forall i :: 0 <= i < |entries[1..]| ==> entries[1..][i] == entries[i + 1];
    }
  }

  lemma {:induction false} PrunedEntryZero(path: Path, e: Entry)
    ensures AllZero(PruneEntry(path, e)) <==> Omittable(path + [e.key.name], e.value)
    decreases e, 2
  {
    var child := path + [e.key.name];
    var pruned := PruneDefaults(child, e.value);
    PrunedZeroIffHollow(child, e.value);
    if IsZero(e.value) {
      ZeroIsHollow(child, e.value);
    }
    assert IsEmptyCollection(pruned) ==> IsZero(pruned);
    assert AllZero([Entry(e.key, pruned)]) <==> IsZero(pruned) by {
      assert [Entry(e.key, pruned)][0].value == pruned;
    }
  }

  /** A new key is left out exactly when its value may be. */
  lemma PrunedDefaultIffOmittable(path: Path, n: Node)
    ensures IsKnownDefault(path, PruneDefaults(path, n)) <==> Omittable(path, n)
  {
    PrunedZeroIffHollow(path, n);
  }
}
