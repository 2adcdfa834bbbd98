/** What the string operations mean: letters by their alphabet, trimming and order by positions. */
module TextLaws {
  import opened Text

  /** A capital, and the small letter at the same place of the alphabet. */
  predicate Cases(a: char, b: char) {
    'A' <= a <= 'Z' && 'a' <= b <= 'z' && a as int - 'A' as int == b as int - 'a' as int
  }

  /** The same character, or the two cases of one letter. */
  predicate SameLetter(a: char, b: char) {
    a == b || Cases(a, b) || Cases(b, a)
  }

  lemma LowersTogether(a: char, b: char)
    ensures LowerChar(a) == LowerChar(b) <==> SameLetter(a, b)
  {
  }

  /** Strings fold together exactly when they differ in nothing but the case of letters. */
  lemma FoldsIff(a: string, b: string)
    ensures EqualFold(a, b) <==> |a| == |b| && forall i :: 0 <= i < |a| ==> SameLetter(a[i], b[i])
  {
    forall i | 0 <= i < |a| && i < |b| ensures ToLower(a)[i] == ToLower(b)[i] <==> SameLetter(a[i], b[i]) {
      LowersTogether(a[i], b[i]);
    }
    if EqualFold(a, b) {
      assert |a| == |ToLower(a)| == |ToLower(b)| == |b|;
    }
  }

  // ----- trimming

  /** Tab, newline, vertical tab, form feed, carriage return and blank. */
  predicate White(c: char) {
    9 <= c as int <= 13 || c as int == 32
  }

  ghost predicate AllWhite(s: string) {
    forall i :: 0 <= i < |s| ==> White(s[i])
  }

  ghost predicate Bare(s: string) {
    s != "" ==> !White(s[0]) && !White(s[|s| - 1])
  }

  ghost predicate Core(s: string, front: string, core: string, back: string) {
    s == front + core + back && AllWhite(front) && AllWhite(back) && Bare(core)
  }

  lemma {:induction false} LeftTrimmed(s: string) returns (front: string)
    ensures s == front + TrimLeft(s) && AllWhite(front) && (TrimLeft(s) != "" ==> !White(TrimLeft(s)[0]))
  {
    if s != "" && IsSpace(s[0]) {
      var rest := LeftTrimmed(s[1..]);
      front := [s[0]] + rest;
      assert s == [s[0]] + s[1..];
    } else {
      front := "";
    }
  }

  lemma {:induction false} RightTrimmed(s: string) returns (back: string)
    ensures s == TrimRight(s) + back && AllWhite(back)
    ensures TrimRight(s) != "" ==> !White(TrimRight(s)[|TrimRight(s)| - 1])
  {
    if s != "" && IsSpace(s[|s| - 1]) {
      var rest := RightTrimmed(s[..|s| - 1]);
      back := rest + [s[|s| - 1]];
      assert s == s[..|s| - 1] + [s[|s| - 1]];
    } else {
      back := "";
    }
  }

  /** Trimming takes white space off both ends and leaves none there. */
  lemma Trimmed(s: string) returns (front: string, back: string)
    ensures Core(s, front, TrimSpace(s), back)
  {
    front := LeftTrimmed(s);
    back := RightTrimmed(TrimLeft(s));
    var left, core := TrimLeft(s), TrimSpace(s);
    assert left == core + back;
    assert core != "" ==> core[0] == left[0];
  }

  /** Cases do not matter to trimming. */
  lemma {:induction false} LowerTrimLeft(s: string)
    ensures TrimLeft(ToLower(s)) == ToLower(TrimLeft(s))
  {
    if s != "" && IsSpace(s[0]) {
      LowerTrimLeft(s[1..]);
      assert ToLower(s)[1..] == ToLower(s[1..]);
    }
  }

  lemma {:induction false} LowerTrimRight(s: string)
    ensures TrimRight(ToLower(s)) == ToLower(TrimRight(s))
  {
    if s != "" && IsSpace(s[|s| - 1]) {
      LowerTrimRight(s[..|s| - 1]);
      assert ToLower(s)[..|s| - 1] == ToLower(s[..|s| - 1]);
    }
  }

  lemma LowerTrim(s: string)
    ensures TrimSpace(ToLower(s)) == ToLower(TrimSpace(s))
  {
    LowerTrimLeft(s);
    LowerTrimRight(TrimLeft(s));
  }

  // ----- order

  /** `a` and `b` agree up to `k`, where `a` ends or has the smaller character. */
  ghost predicate FirstDifference(a: string, b: string, k: nat) {
    k <= |a| && k < |b| && a[..k] == b[..k] && (k == |a| || a[k] < b[k])
  }

  /** The order is the dictionary order. */
  lemma {:induction false} LessIff(a: string, b: string)
    ensures Less(a, b) <==> exists k: nat :: FirstDifference(a, b, k)
  {
    forall k: nat | FirstDifference(a, b, k) && k > 0 ensures a != "" && a[0] == b[0] {
      assert a[..k][0] == a[0] && b[..k][0] == b[0];
    }
    if b != "" && a != "" && a[0] == b[0] {
      LessIff(a[1..], b[1..]);
      DifferenceLater(a, b);
    } else if b != "" {
      assert a[..0] == b[..0];
      assert Less(a, b) ==> FirstDifference(a, b, 0);
    }
  }

  lemma DifferenceLater(a: string, b: string)
    requires a != "" && b != "" && a[0] == b[0]
    ensures (exists k: nat :: FirstDifference(a, b, k)) <==> exists k: nat :: FirstDifference(a[1..], b[1..], k)
  {
    if k: nat :| FirstDifference(a[1..], b[1..], k) {
      assert a[..k + 1] == [a[0]] + a[1..][..k] && b[..k + 1] == [b[0]] + b[1..][..k];
      assert FirstDifference(a, b, k + 1);
    }
    if k: nat :| FirstDifference(a, b, k) {
      assert a[1..][..k - 1] == a[..k][1..] && b[1..][..k - 1] == b[..k][1..];
      assert FirstDifference(a[1..], b[1..], k - 1);
    }
  }
}
