/** Wildcard patterns over model names: the greedy matcher and what it decides. */
module Glob {
  import opened Wrappers
  import Text

  // ----- what a pattern means

  function Stars(pattern: string): nat {
    if pattern == "" then 0 else (if pattern[0] == '*' then 1 else 0) + Stars(pattern[1..])
  }

  /** The pattern with its stars replaced, one after another, by the given strings. */
  function Fill(pattern: string, subs: seq<string>): string
    requires |subs| == Stars(pattern)
  {
    if pattern == "" then ""
    else if pattern[0] == '*' then subs[0] + Fill(pattern[1..], subs[1..])
    else [pattern[0]] + Fill(pattern[1..], subs)
  }

  ghost predicate FilledBy(pattern: string, s: string, subs: seq<string>) {
    |subs| == Stars(pattern) && Fill(pattern, subs) == s
  }

  /** Some replacement of the stars turns the pattern into `s`. */
  ghost predicate Globs(pattern: string, s: string) {
    exists subs :: FilledBy(pattern, s, subs)
  }

  // ----- the parts between the stars

  function Split(s: string): (parts: seq<string>)
    ensures |parts| == Stars(s) + 1
  {
    if s == "" then [""]
    else
      var rest := Split(s[1..]);
      if s[0] == '*' then [""] + rest else [[s[0]] + rest[0]] + rest[1..]
  }

  predicate At(s: string, part: string, g: nat) {
    g + |part| <= |s| && s[g..g + |part|] == part
  }

  /** The parts occur in `s` in order, each after a gap of any length, the last one at the end. */
  ghost predicate Fits(parts: seq<string>, s: string)
    decreases |parts|
  {
    if parts == [] then s == ""
    else exists g: nat :: At(s, parts[0], g) && Fits(parts[1..], s[g + |parts[0]|..])
  }

  /** The first part at the front, the others fitting in what remains. */
  ghost predicate Lines(parts: seq<string>, s: string) {
    parts != [] && At(s, parts[0], 0) && Fits(parts[1..], s[|parts[0]|..])
  }

  lemma FitsAt(parts: seq<string>, s: string, g: nat)
    requires parts != [] && At(s, parts[0], g) && Fits(parts[1..], s[g + |parts[0]|..])
    ensures Fits(parts, s)
  {
  }

  lemma FirstGap(parts: seq<string>, s: string) returns (g: nat)
    requires parts != [] && Fits(parts, s)
    ensures At(s, parts[0], g) && Fits(parts[1..], s[g + |parts[0]|..])
  {
    g :| At(s, parts[0], g) && Fits(parts[1..], s[g + |parts[0]|..]);
  }

  ghost predicate LinesFrom(parts: seq<string>, s: string, g: nat) {
    g <= |s| && Lines(parts, s[g..])
  }

  lemma LinesAfterStar(rest: seq<string>, s: string)
    requires rest != []
    ensures Lines([""] + rest, s) <==> Fits(rest, s)
  {
    assert ([""] + rest)[1..] == rest;
    assert s[0..] == s;
  }

  lemma FitsIsLines(parts: seq<string>, s: string) returns (g: nat)
    requires parts != [] && Fits(parts, s)
    ensures LinesFrom(parts, s, g)
  {
    g := FirstGap(parts, s);
    assert s[g..][|parts[0]|..] == s[g + |parts[0]|..];
    assert s[g..][0..|parts[0]|] == s[g..g + |parts[0]|];
  }

  lemma LinesIsFits(parts: seq<string>, s: string, g: nat)
    requires LinesFrom(parts, s, g)
    ensures Fits(parts, s)
  {
    assert s[g..][|parts[0]|..] == s[g + |parts[0]|..];
    assert s[g..][0..|parts[0]|] == s[g..g + |parts[0]|];
    FitsAt(parts, s, g);
  }

  lemma LinesAfterChar(c: char, rest: seq<string>, s: string)
    requires rest != []
    ensures Lines([[c] + rest[0]] + rest[1..], s) <==> s != "" && s[0] == c && Lines(rest, s[1..])
  {
    var parts := [[c] + rest[0]] + rest[1..];
    assert parts[1..] == rest[1..];
    if s != "" && |rest[0]| + 1 <= |s| {
      assert s[0..|rest[0]| + 1] == [s[0]] + s[1..][0..|rest[0]|];
      assert s[|rest[0]| + 1..] == s[1..][|rest[0]|..];
    }
  }

  /** The parts line up exactly when some replacement of the stars gives the string. */
  lemma {:induction false} LinesIffGlobs(pattern: string, s: string)
    ensures Lines(Split(pattern), s) <==> Globs(pattern, s)
    decreases |pattern|, 1
  {
    if pattern == "" {
      assert FilledBy("", "", []);
      assert s[0..] == s;
      if s == "" {
        assert Lines([""], "");
      }
    } else if pattern[0] == '*' {
      StarCase(pattern, s);
    } else {
      CharCase(pattern, s);
    }
  }

  lemma FillsAfterStar(pattern: string, s: string, g: nat, subs: seq<string>)
    requires pattern != "" && pattern[0] == '*' && g <= |s| && FilledBy(pattern[1..], s[g..], subs)
    ensures FilledBy(pattern, s, [s[..g]] + subs)
  {
    assert ([s[..g]] + subs)[1..] == subs;
    assert s == s[..g] + s[g..];
  }

  lemma FilledAfterStar(pattern: string, s: string, subs: seq<string>)
    requires pattern != "" && pattern[0] == '*' && FilledBy(pattern, s, subs)
    ensures |subs| > 0 && |subs[0]| <= |s| && FilledBy(pattern[1..], s[|subs[0]|..], subs[1..])
  {
    assert s[|subs[0]|..] == Fill(pattern[1..], subs[1..]);
  }

  lemma {:induction false} StarCase(pattern: string, s: string)
    requires pattern != "" && pattern[0] == '*'
    ensures Lines(Split(pattern), s) ==> Globs(pattern, s)
    ensures Globs(pattern, s) ==> Lines(Split(pattern), s)
    decreases |pattern|, 0
  {
    var tail := pattern[1..];
    LinesAfterStar(Split(tail), s);
    if Fits(Split(tail), s) {
      var g := FitsIsLines(Split(tail), s);
      LinesIffGlobs(tail, s[g..]);
      var subs :| FilledBy(tail, s[g..], subs);
      FillsAfterStar(pattern, s, g, subs);
    }
    if Globs(pattern, s) {
      var subs :| FilledBy(pattern, s, subs);
      FilledAfterStar(pattern, s, subs);
      LinesIffGlobs(tail, s[|subs[0]|..]);
      LinesIsFits(Split(tail), s, |subs[0]|);
    }
  }

  lemma {:induction false} CharCase(pattern: string, s: string)
    requires pattern != "" && pattern[0] != '*'
    ensures Lines(Split(pattern), s) <==> Globs(pattern, s)
    decreases |pattern|, 0
  {
    var tail := pattern[1..];
    LinesAfterChar(pattern[0], Split(tail), s);
    if Lines(Split(pattern), s) {
      LinesIffGlobs(tail, s[1..]);
      var subs :| FilledBy(tail, s[1..], subs);
      assert s == [s[0]] + s[1..];
      assert FilledBy(pattern, s, subs);
    }
    if Globs(pattern, s) {
      var subs :| FilledBy(pattern, s, subs);
      assert s[1..] == Fill(tail, subs);
      assert FilledBy(tail, s[1..], subs);
      LinesIffGlobs(tail, s[1..]);
    }
  }

  // ----- leftmost is enough

  /** Position of the first occurrence at or after `from`, or -1. */
  function IndexFrom(s: string, part: string, from: nat): (r: int)
    requires from <= |s|
    ensures r >= 0 ==> r >= from && At(s, part, r)
    ensures forall g: nat :: from <= g && At(s, part, g) ==> 0 <= r <= g
    decreases |s| - from
  {
    if At(s, part, from) then from
    else if from == |s| then -1
    else IndexFrom(s, part, from + 1)
  }

  /** What fits in a suffix fits in the whole, with a longer first gap. */
  lemma FitsWider(parts: seq<string>, s: string, k: nat)
    requires parts != [] && k <= |s| && Fits(parts, s[k..])
    ensures Fits(parts, s)
  {
    var g := FirstGap(parts, s[k..]);
    assert s[k..][g..g + |parts[0]|] == s[k + g..k + g + |parts[0]|];
    assert s[k..][g + |parts[0]|..] == s[k + g + |parts[0]|..];
    FitsAt(parts, s, k + g);
  }

  /** Unless it is the last one, a part may as well be taken at its first occurrence. */
  lemma LeftmostSuffices(parts: seq<string>, s: string)
    requires |parts| > 1
    ensures var g := IndexFrom(s, parts[0], 0);
            Fits(parts, s) <==> g >= 0 && Fits(parts[1..], s[g + |parts[0]|..])
  {
    var g0 := IndexFrom(s, parts[0], 0);
    if Fits(parts, s) {
      LeftmostFits(parts, s);
    }
    if g0 >= 0 && Fits(parts[1..], s[g0 + |parts[0]|..]) {
      FitsAt(parts, s, g0);
    }
  }

  lemma LeftmostFits(parts: seq<string>, s: string)
    requires |parts| > 1 && Fits(parts, s)
    ensures var g := IndexFrom(s, parts[0], 0); g >= 0 && Fits(parts[1..], s[g + |parts[0]|..])
  {
    var g0 := IndexFrom(s, parts[0], 0);
    var g := FirstGap(parts, s);
    var w := s[g0 + |parts[0]|..];
    assert w[g - g0..] == s[g + |parts[0]|..];
    FitsWider(parts[1..], w, g - g0);
  }

  lemma LastFitsAtEnd(part: string, s: string)
    ensures Fits([part], s) <==> Text.HasSuffix(s, part)
  {
    if Fits([part], s) {
      var g := FirstGap([part], s);
      assert [part][1..] == [] && g + |part| == |s|;
    }
    if Text.HasSuffix(s, part) {
      assert s[|s| - |part|..|s|] == s[|s| - |part|..];
      assert [part][1..] == [] && s[|s|..] == "";
      FitsAt([part], s, |s| - |part|);
    }
  }

  /** The last part must stand at the end; having found it somewhere, comparing suffixes decides. */
  lemma LastBySuffix(part: string, model: string, position: nat)
    requires position <= |model|
    ensures Fits([part], model[position..])
       <==> IndexFrom(model[position..], part, 0) >= 0 && Text.HasSuffix(model, part)
  {
    var s := model[position..];
    LastFitsAtEnd(part, s);
    if |part| <= |s| {
      assert s[|s| - |part|..] == model[|model| - |part|..];
      assert s[|s| - |part|..|s|] == s[|s| - |part|..];
      assert At(s, part, |s| - |part|) <==> Text.HasSuffix(s, part);
    }
  }

  // ----- the matcher

  function Normalize(s: string): string {
    Text.ToLower(Text.TrimSpace(Text.TrimPrefix(s, "models/")))
  }

  lemma {:induction false} GlobsItself(pattern: string)
    ensures Globs(pattern, pattern)
  {
    if pattern == "" {
      assert FilledBy("", "", []);
    } else {
      GlobsItself(pattern[1..]);
      var subs :| FilledBy(pattern[1..], pattern[1..], subs);
      assert pattern == [pattern[0]] + pattern[1..];
      if pattern[0] == '*' {
        assert (["*"] + subs)[1..] == subs;
        assert FilledBy(pattern, pattern, ["*"] + subs);
      } else {
        assert FilledBy(pattern, pattern, subs);
      }
    }
  }

  lemma {:induction false} NoStarFillsOnlyItself(pattern: string, subs: seq<string>)
    requires '*' !in pattern && |subs| == Stars(pattern)
    ensures subs == [] && Fill(pattern, subs) == pattern
  {
    if pattern != "" {
      NoStarFillsOnlyItself(pattern[1..], subs);
      assert pattern == [pattern[0]] + pattern[1..];
    }
  }

  lemma NoStarGlobs(pattern: string, s: string)
    requires '*' !in pattern
    ensures Globs(pattern, s) <==> pattern == s
  {
    GlobsItself(pattern);
    if Globs(pattern, s) {
      var subs :| FilledBy(pattern, s, subs);
      NoStarFillsOnlyItself(pattern, subs);
    }
  }

  lemma StarGlobsAll(s: string)
    ensures Globs("*", s)
  {
    assert "*"[1..] == "";
    assert Stars("") == 0;
    assert FilledBy("*", s, [s]) by {
      assert s + "" == s;
    }
  }

  lemma {:induction false} StarInPattern(pattern: string)
    requires '*' in pattern
    ensures Stars(pattern) > 0
  {
    if pattern[0] != '*' {
      StarInPattern(pattern[1..]);
    }
  }

  /** What one turn of the loop finds out: whether the parts from `i` on fit is passed on to those behind. */
  lemma NextPart(parts: seq<string>, model: string, position: nat, i: nat, fits: bool)
    requires i < |parts| && position <= |model| && fits == Fits(parts[i..], model[position..])
    ensures var part := parts[i]; var next := IndexFrom(model[position..], part, 0);
      && (part == "" ==> next == 0)
      && (next < 0 ==> !fits)
      && (next >= 0 ==> position + next + |part| <= |model|)
      && (next >= 0 && i + 1 < |parts| ==> fits == Fits(parts[i + 1..], model[position + next + |part|..]))
      && (next >= 0 && i + 1 == |parts| ==> fits == Text.HasSuffix(model, part))
  {
    var part := parts[i];
    assert parts[i..][1..] == parts[i + 1..];
    var next := IndexFrom(model[position..], part, 0);
    assert part == "" ==> At(model[position..], "", 0);
    if next >= 0 {
      assert model[position..][next + |part|..] == model[position + next + |part|..];
    }
    if i + 1 == |parts| {
      assert parts[i..] == [part];
      LastBySuffix(part, model, position);
    } else {
      LeftmostSuffices(parts[i..], model[position..]);
    }
  }

  /** The parts but the last are taken leftmost; the last is compared with the end. */
  method MatchParts(parts: seq<string>, model: string) returns (matches: bool)
    requires |parts| > 1
    ensures matches <==> Lines(parts, model)
  {
    var position: nat := 0;
    if parts[0] != "" {
      if !Text.HasPrefix(model, parts[0]) {
        assert !At(model, parts[0], 0);
        return false;
      }
      position := |parts[0]|;
    }
    assert At(model, parts[0], 0);
    matches := MatchRest(parts, model, position, Fits(parts[1..], model[position..]));
  }

  /** The loop over the parts behind the first. */
  method MatchRest(parts: seq<string>, model: string, start: nat, ghost fits: bool) returns (matches: bool)
    requires |parts| > 1 && start <= |model|
    requires fits <==> Fits(parts[1..], model[start..])
    ensures matches == fits
  {
    var position: nat := start;
    var i := 1;
    while i < |parts|
      invariant 1 <= i <= |parts| && position <= |model|
      invariant i < |parts| ==> fits == Fits(parts[i..], model[position..])
      invariant i == |parts| ==> fits == Text.HasSuffix(model, parts[i - 1])
    {
      var part := parts[i];
      NextPart(parts, model, position, i, fits);
      if part == "" {
        i := i + 1;
        continue;
      }
      var next := IndexFrom(model[position..], part, 0);
      if next < 0 {
        return false;
      }
      position := position + next + |part|;
      i := i + 1;
    }
    var last := parts[|parts| - 1];
    return last == "" || Text.HasSuffix(model, last);
  }

  /** A model matches exactly when both normalised names are non-empty and the stars can be filled in. */
  method ModelPatternMatches(model: string, pattern: string) returns (matches: bool)
    ensures matches <==>
      && Normalize(model) != "" && Normalize(pattern) != ""
      && Globs(Normalize(pattern), Normalize(model))
  {
    var m := Normalize(model);
    var p := Normalize(pattern);
    if m == "" || p == "" {
      return false;
    }
    if p == "*" || p == m {
      StarGlobsAll(m);
      GlobsItself(m);
      return true;
    }
    if '*' !in p {
      NoStarGlobs(p, m);
      return false;
    }
    StarInPattern(p);
    LinesIffGlobs(p, m);
    matches := MatchParts(Split(p), m);
  }

  ghost predicate Selects(pattern: string, model: string) {
    Normalize(model) != "" && Normalize(pattern) != "" && Globs(Normalize(pattern), Normalize(model))
  }

  datatype Control = Control(models: seq<string>, excludedModels: seq<string>)

  /** A key may use a model unless an exclusion selects it, and, given a list, only if that selects it. */
  method ModelAllowed(control: Option<Control>, model: string) returns (allowed: bool)
    ensures control.None? ==> allowed
    ensures control.Some? ==>
      var name := Text.TrimPrefix(Text.TrimSpace(model), "models/");
      allowed <==>
        || name == ""
        || (&& (forall i :: 0 <= i < |control.value.excludedModels| ==> !Selects(control.value.excludedModels[i], name))
            && (control.value.models == []
                || exists i :: 0 <= i < |control.value.models| && Selects(control.value.models[i], name)))
  {
    if control.None? {
      return true;
    }
    var name := Text.TrimPrefix(Text.TrimSpace(model), "models/");
    if name == "" {
      return true;
    }
    var excluded, listed := control.value.excludedModels, control.value.models;
    for i := 0 to |excluded|
      invariant forall k :: 0 <= k < i ==> !Selects(excluded[k], name)
    {
      var hit := ModelPatternMatches(name, excluded[i]);
      if hit {
        return false;
      }
    }
    if |listed| == 0 {
      return true;
    }
    for i := 0 to |listed|
      invariant forall k :: 0 <= k < i ==> !Selects(listed[k], name)
    {
      var hit := ModelPatternMatches(name, listed[i]);
      if hit {
        return true;
      }
    }
    return false;
  }
}
