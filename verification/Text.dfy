/** White space and trimming, as `unicode.IsSpace`, `unicode.IsControl` and `strings.TrimSpace`
    define them. A Go string is modelled by the sequence of its runes. */
module Text {

  predicate IsSpace(c: char) {
    '\U{0009}' <= c <= '\U{000D}' || c == ' ' || c == '\U{0085}' || c == '\U{00A0}' || c == '\U{1680}' ||
    '\U{2000}' <= c <= '\U{200A}' || c == '\U{2028}' || c == '\U{2029}' || c == '\U{202F}' ||
    c == '\U{205F}' || c == '\U{3000}'
  }

  predicate IsControl(c: char) {
    c <= '\U{001F}' || '\U{007F}' <= c <= '\U{009F}'
  }

  predicate Blank(s: string) {
    forall i | 0 <= i < |s| :: IsSpace(s[i])
  }

  /** Neither end is white space. */
  predicate Trimmed(s: string) {
    s != "" ==> !IsSpace(s[0]) && !IsSpace(s[|s| - 1])
  }

  function LeadingSpaces(s: string, k: nat): (n: nat)
    requires k <= |s|
    ensures k <= n <= |s|
    ensures forall i | k <= i < n :: IsSpace(s[i])
    ensures n < |s| ==> !IsSpace(s[n])
    decreases |s| - k
  {
    if k < |s| && IsSpace(s[k]) then LeadingSpaces(s, k + 1) else k
  }

  function ContentEnd(s: string, k: nat): (n: nat)
    requires k <= |s|
    ensures n <= k
    ensures forall i | n <= i < k :: IsSpace(s[i])
    ensures n > 0 ==> !IsSpace(s[n - 1])
  {
    if k > 0 && IsSpace(s[k - 1]) then ContentEnd(s, k - 1) else k
  }

  /** strings.TrimSpace */
  function Trim(s: string): (r: string)
    ensures Trimmed(r)
    ensures |r| <= |s|
  {
    var start := LeadingSpaces(s, 0);
    var end := ContentEnd(s, |s|);
    if start < end then s[start..end] else ""
  }

  /** What trimming cuts off on either side is white space. */
  lemma TrimCutsOnlySpace(s: string) returns (front: string, back: string)
    ensures s == front + Trim(s) + back && Blank(front) && Blank(back)
  {
    hide IsSpace;
    var start := LeadingSpaces(s, 0);
    var end := ContentEnd(s, |s|);
    if start < end {
      front, back := s[..start], s[end..];
      assert s == s[..start] + s[start..end] + s[end..];
    } else {
      front, back := s, "";
      assert s + "" + "" == s;
    }
  }

  /** And whatever is left between white space, with none at its own ends, is the trimmed string. */
  lemma TrimIsUnique(s: string, front: string, middle: string, back: string)
    requires s == front + middle + back && Blank(front) && Trimmed(middle) && Blank(back)
    ensures middle == Trim(s)
  {
    hide IsSpace;
    var start := LeadingSpaces(s, 0);
    var end := ContentEnd(s, |s|);
    assert forall i | 0 <= i < |front| :: s[i] == front[i];
    assert forall i | 0 <= i < |middle| :: s[|front| + i] == middle[i];
    assert forall i | 0 <= i < |back| :: s[|front| + |middle| + i] == back[i];
    if middle == "" {
      AllBlank(s, front, back);
    } else {
      assert start >= |front| && !IsSpace(s[|front|]) && start == |front|;
      assert end == |front| + |middle|;
      assert s[start..end] == middle;
    }
  }

  lemma AllBlank(s: string, front: string, back: string)
    requires s == front + back && Blank(front) && Blank(back)
    ensures Blank(s)
  {
    hide IsSpace;
  }

  /** Trimming leaves a string alone exactly when neither of its ends is white space; so it is idempotent. */
  lemma TrimFixpoint(s: string)
    ensures Trim(s) == s <==> Trimmed(s)
    ensures Trim(Trim(s)) == Trim(s)
  {
    TrimmedIsFixed(Trim(s));
    if Trimmed(s) {
      TrimmedIsFixed(s);
    }
  }

  lemma TrimmedIsFixed(s: string)
    requires Trimmed(s)
    ensures Trim(s) == s
  {
    TrimIsUnique(s, "", s, "");
  }

  lemma TrimEmpty(s: string)
    ensures Trim(s) == "" <==> Blank(s)
  {
    hide Trim, IsSpace;
    var front, back := TrimCutsOnlySpace(s);
    if Trim(s) == "" {
      assert s == front + back;
      AllBlank(s, front, back);
    }
    if Blank(s) {
      assert s == s + "" + "";
      TrimIsUnique(s, s, "", "");
    }
  }
}
