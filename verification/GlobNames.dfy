/** Which differences between model names do not matter to a pattern. */
module GlobNames {
  import opened Glob
  import opened TextLaws
  import Text

  const PREFIX := "models/"

  /** A compared name has no capitals, and no white space at its ends. */
  lemma NormalizedForm(s: string)
    ensures Bare(Normalize(s)) && forall i :: 0 <= i < |Normalize(s)| ==> !('A' <= Normalize(s)[i] <= 'Z')
  {
    var rest := Text.TrimPrefix(s, PREFIX);
    var _, _ := Trimmed(rest);
    LowerTrim(rest);
    var core := Text.TrimSpace(rest);
    assert |Normalize(s)| == |core|;
    if core != "" {
      assert !White(core[0]) && !White(core[|core| - 1]);
      assert Normalize(s)[0] == Text.LowerChar(core[0]);
      assert Normalize(s)[|core| - 1] == Text.LowerChar(core[|core| - 1]);
    }
  }

  /** A name with the prefix is compared without it. */
  lemma WithoutPrefix(s: string)
    ensures Normalize(PREFIX + s) == Text.ToLower(Text.TrimSpace(s))
    ensures !Text.HasPrefix(s, PREFIX) ==> Normalize(s) == Text.ToLower(Text.TrimSpace(s))
  {
    assert (PREFIX + s)[|PREFIX|..] == s;
  }

  lemma FoldTrims(a: string, b: string)
    requires Text.EqualFold(a, b)
    ensures Text.EqualFold(Text.TrimSpace(a), Text.TrimSpace(b))
  {
    LowerTrim(a);
    LowerTrim(b);
  }

  lemma FoldDrops(a: string, b: string, n: nat)
    requires Text.EqualFold(a, b) && n <= |a|
    ensures n <= |b| && Text.EqualFold(a[n..], b[n..])
  {
    assert |a| == |Text.ToLower(a)| == |Text.ToLower(b)| == |b|;
    forall i | 0 <= i < |a| - n ensures Text.ToLower(a[n..])[i] == Text.ToLower(b[n..])[i] {
      assert Text.ToLower(a)[n + i] == Text.ToLower(b)[n + i];
    }
  }

  // ----- how the prefix counts

  lemma {:induction false} RightOfFront(s: string, n: nat)
    requires 0 < n <= |s| && !Text.IsSpace(s[n - 1])
    ensures Text.TrimRight(s) == s[..n] + Text.TrimRight(s[n..])
  {
    var last := |s| - 1;
    if n <= last && Text.IsSpace(s[last]) {
      RightOfFront(s[..last], n);
      assert s[..last][..n] == s[..n] && s[..last][n..] == s[n..][..last - n];
    } else if n <= last {
      assert s[n..][|s[n..]| - 1] == s[last];
    } else {
      assert s[..n] == s && s[n..] == "";
    }
  }

  lemma {:induction false} RightOfRest(s: string)
    requires s != ""
    ensures |Text.TrimRight(s[1..])| <= |Text.TrimRight(s)|
  {
    var last := |s| - 1;
    if last > 0 && Text.IsSpace(s[last]) {
      RightOfRest(s[..last]);
      assert s[..last][1..] == s[1..][..last - 1];
    }
  }

  lemma {:induction false} LeftShortens(s: string)
    ensures |Text.TrimSpace(s)| <= |Text.TrimRight(s)|
  {
    if s != "" && Text.IsSpace(s[0]) {
      LeftShortens(s[1..]);
      RightOfRest(s);
    }
  }

  /** White space around a name aside, what stands behind its front is shorter than the whole. */
  lemma FrontCounts(s: string, n: nat)
    requires 0 < n <= |s| && !Text.IsSpace(s[0]) && !Text.IsSpace(s[n - 1])
    ensures |Text.TrimSpace(s[n..])| + n <= |Text.TrimSpace(s)|
  {
    RightOfFront(s, n);
    LeftShortens(s[n..]);
  }

  /** Where only one of two names has the prefix in small letters, they are compared as different. */
  lemma PrefixCounts(a: string, b: string)
    requires Text.EqualFold(a, b) && Text.HasPrefix(a, PREFIX) && !Text.HasPrefix(b, PREFIX)
    ensures Normalize(a) != Normalize(b)
  {
    var n := |PREFIX|;
    FoldDrops(a, b, n);
    FoldTrims(a[n..], b[n..]);
    assert Text.ToLower(a)[0] == Text.ToLower(b)[0] && Text.ToLower(a)[n - 1] == Text.ToLower(b)[n - 1];
    FrontCounts(b, n);
    SameLength(a[n..], b[n..]);
  }

  lemma SameLength(a: string, b: string)
    requires Text.EqualFold(a, b)
    ensures |Text.TrimSpace(a)| == |Text.TrimSpace(b)|
  {
    FoldTrims(a, b);
    assert |Text.ToLower(Text.TrimSpace(a))| == |Text.ToLower(Text.TrimSpace(b))|;
  }

  /** Names that differ only in case are compared as the same if and only if both have the prefix in small letters, or neither. */
  lemma CaseIgnoredIff(a: string, b: string)
    requires Text.EqualFold(a, b)
    ensures Normalize(a) == Normalize(b) <==> (Text.HasPrefix(a, PREFIX) <==> Text.HasPrefix(b, PREFIX))
  {
    if Text.HasPrefix(a, PREFIX) && Text.HasPrefix(b, PREFIX) {
      FoldDrops(a, b, |PREFIX|);
      FoldTrims(a[|PREFIX|..], b[|PREFIX|..]);
    } else if Text.HasPrefix(a, PREFIX) {
      PrefixCounts(a, b);
    } else if Text.HasPrefix(b, PREFIX) {
      PrefixCounts(b, a);
    } else {
      FoldTrims(a, b);
    }
  }

  /** Such names are selected by the same patterns, and such patterns select the same names. */
  lemma CaseDoesNotSelect(pattern: string, pattern': string, model: string, model': string)
    requires Text.EqualFold(pattern, pattern') && (Text.HasPrefix(pattern, PREFIX) <==> Text.HasPrefix(pattern', PREFIX))
    requires Text.EqualFold(model, model') && (Text.HasPrefix(model, PREFIX) <==> Text.HasPrefix(model', PREFIX))
    ensures Selects(pattern, model) <==> Selects(pattern', model')
  {
    CaseIgnoredIff(pattern, pattern');
    CaseIgnoredIff(model, model');
  }

  /** A prefix in capitals stays part of the name: the pattern "m" selects "models/m" and not "MODELS/m". */
  lemma CapitalPrefixStays()
    ensures Selects("m", "models/m") && !Selects("m", "MODELS/m")
  {
    WithoutPrefix("m");
    assert PREFIX + "m" == "models/m";
    GlobsItself("m");
    var name := "MODELS/m";
    assert name[0] == 'M';
    assert Text.TrimSpace("m") == "m" && Text.ToLower("m") == "m";
    assert Text.TrimSpace(name) == name;
    NoStarGlobs("m", Text.ToLower(name));
    assert |Text.ToLower(name)| == 8;
  }
}
