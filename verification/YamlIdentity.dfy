/** What makes two nodes the same element of a list: the key that names them, or their shape. */
module YamlIdentity {
  import opened Wrappers
  import opened YamlTree
  import opened YamlMerge
  import Text

  // ----- naming keys

  /** The value is a scalar, and its key is `key` but for case and surrounding blanks. */
  predicate IsUnder(e: Entry, key: string) {
    e.value.Scalar? && Text.ToLower(Text.TrimSpace(e.key.name)) == key
  }

  /** The scalar under a key is the first there is. */
  lemma {:induction false} UnderKey(entries: seq<Entry>, key: string, i: nat)
    requires i < |entries| && IsUnder(entries[i], key) && forall j :: 0 <= j < i ==> !IsUnder(entries[j], key)
    ensures ScalarUnder(entries, key) == Text.TrimSpace(entries[i].value.text)
  {
    if i > 0 {
      UnderKey(entries[1..], key, i - 1);
    }
  }

  lemma {:induction false} UnderNoKey(entries: seq<Entry>, key: string)
    requires forall j :: 0 <= j < |entries| ==> !IsUnder(entries[j], key)
    ensures ScalarUnder(entries, key) == ""
  {
    if entries != [] {
      UnderNoKey(entries[1..], key);
    }
  }

  /** `key` is the first of the naming keys under which the mapping has a text, namely `text`. */
  ghost predicate NamedBy(n: Node, k: nat, key: string, text: string) {
    && n.Mapping? && k < 9
    && key == ["id", "name", "alias", "api-key", "api_key", "apikey", "key", "provider", "model"][k]
    && (forall j :: 0 <= j < k ==> ScalarUnder(n.entries, IDENTITY_KEYS[j]) == "")
    && ScalarUnder(n.entries, key) == text != ""
  }

  lemma {:induction false} AmongFirst(entries: seq<Entry>, keys: seq<string>, k: nat)
    requires k < |keys| && ScalarUnder(entries, keys[k]) != ""
    requires forall j :: 0 <= j < k ==> ScalarUnder(entries, keys[j]) == ""
    ensures IdentityAmong(entries, keys) == keys[k] + "=" + ScalarUnder(entries, keys[k])
  {
    if k > 0 {
      AmongFirst(entries, keys[1..], k - 1);
    }
  }

  lemma NamedIdentity(n: Node, k: nat, key: string, text: string)
    requires NamedBy(n, k, key, text)
    ensures Identity(n) == key + "=" + text && '=' !in key
  {
    AmongFirst(n.entries, IDENTITY_KEYS, k);
  }

  lemma EqualsSplits(a: string, x: string, b: string, y: string)
    requires '=' !in a && '=' !in b
    ensures a + "=" + x == b + "=" + y <==> a == b && x == y
  {
    var s, t := a + "=" + x, b + "=" + y;
    assert s[|a|] == '=' && forall i :: 0 <= i < |a| ==> s[i] == a[i];
    assert t[|b|] == '=' && forall i :: 0 <= i < |b| ==> t[i] == b[i];
    if s == t {
      assert |a| == |b|;
      assert a == s[..|a|] && b == t[..|b|];
      assert x == s[|a| + 1..] && y == t[|b| + 1..];
    }
  }

  /** Two named mappings are the same element exactly if the same key names them with the same text. */
  lemma NameDecides(a: Node, j: nat, keyA: string, textA: string, b: Node, k: nat, keyB: string, textB: string)
    requires NamedBy(a, j, keyA, textA) && NamedBy(b, k, keyB, textB)
    ensures SameIdentity(a, b) <==> keyA == keyB && textA == textB
  {
    NamedIdentity(a, j, keyA, textA);
    NamedIdentity(b, k, keyB, textB);
    EqualsSplits(keyA, textA, keyB, textB);
  }

  /** Without a naming key, the first scalar with a text names the mapping, by its key and text. */
  lemma {:induction false} FirstScalarNames(entries: seq<Entry>, i: nat)
    requires i < |entries| && entries[i].value.Scalar? && Text.TrimSpace(entries[i].value.text) != ""
    requires forall j :: 0 <= j < i && entries[j].value.Scalar? ==> Text.TrimSpace(entries[j].value.text) == ""
    ensures FirstScalarIdentity(entries)
         == Text.ToLower(Text.TrimSpace(entries[i].key.name)) + "=" + Text.TrimSpace(entries[i].value.text)
  {
    if i > 0 {
      FirstScalarNames(entries[1..], i - 1);
    }
  }

  // ----- the element a named mapping takes over

  /** A mapping named by its id takes over the old element with that id, if it is there and unused. */
  lemma IdTakesOver(original: seq<Node>, used: seq<int>, target: Node, i: nat, id: string)
    requires i < |original| && i !in used && NamedBy(original[i], 0, "id", id) && NamedBy(target, 0, "id", id)
    ensures 0 <= MatchElement(original, used, target) <= i
  {
    NameDecides(original[i], 0, "id", id, target, 0, "id", id);
    MatchPriority(original, used, target, i);
  }

  /** A mapping named by its id takes over none with another id, unless that has the same shape. */
  lemma OtherIdStays(original: seq<Node>, used: seq<int>, target: Node, id: string, other: string)
    requires NamedBy(target, 0, "id", id) && MatchElement(original, used, target) >= 0
    requires NamedBy(original[MatchElement(original, used, target)], 0, "id", other) && other != id
    ensures Shape(original[MatchElement(original, used, target)]) == Shape(target)
  {
    var r := MatchElement(original, used, target);
    NameDecides(original[r], 0, "id", other, target, 0, "id", id);
    MatchPriority(original, used, target, r);
    SameStructureIff(original[r], target);
  }

  // ----- shapes

  /** A node without its comments, styles, tags and surrounding blanks. */
  function Shape(n: Node): Node
    decreases n
  {
    match n
    case Scalar(_, text, _) => Scalar("", Text.TrimSpace(text), "")
    case Sequence(_, items, _) =>
      Sequence("", seq(|items|, i requires 0 <= i < |items| => Shape(items[i])), "")
    case Mapping(_, entries, _) =>
      Mapping("", seq(|entries|, i requires 0 <= i < |entries| => ShapeEntry(entries[i])), "")
  }

  function ShapeEntry(e: Entry): Entry
    decreases e
  {
    Entry(Key(Text.TrimSpace(e.key.name), ""), Shape(e.value))
  }

  /** Equal structure is equality of shapes. */
  lemma {:induction false} SameStructureIff(a: Node, b: Node)
    ensures SameStructure(a, b) <==> Shape(a) == Shape(b)
    decreases a
  {
    match a
    case Scalar(_, _, _) =>
    case Sequence(_, items, _) =>
      if b.Sequence? && |items| == |b.items| {
        forall i | 0 <= i < |items|
          ensures SameStructure(items[i], b.items[i]) <==> Shape(a).items[i] == Shape(b).items[i]
        {
          SameStructureIff(items[i], b.items[i]);
        }
      } else if b.Sequence? {
        assert |Shape(a).items| != |Shape(b).items|;
      }
    case Mapping(_, entries, _) =>
      if b.Mapping? && |entries| == |b.entries| {
        forall i | 0 <= i < |entries|
          ensures Text.TrimSpace(entries[i].key.name) == Text.TrimSpace(b.entries[i].key.name)
                  && SameStructure(entries[i].value, b.entries[i].value)
             <==> Shape(a).entries[i] == Shape(b).entries[i]
        {
          SameStructureIff(entries[i].value, b.entries[i].value);
        }
      } else if b.Mapping? {
        assert |Shape(a).entries| != |Shape(b).entries|;
      }
  }
}
