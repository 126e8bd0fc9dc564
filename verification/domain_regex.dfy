/** The domain pattern shared by the server's request validation and the
    search form:
      ^[a-zA-Z0-9][a-zA-Z0-9-]{0,61}[a-zA-Z0-9]?\.([a-zA-Z]{2,}\.?)+$
    `RegexMatch` gives the pattern's own meaning (some way of cutting the input
    into the pattern's pieces); `IsValidDomain` is a direct check, and the two
    are proved to agree. */
module DomainRegex {
  import opened Text

  predicate IsLabelChar(c: char) {
    IsAlnum(c) || c == '-'
  }

  // ---------------------------------------------------------------------------
  // The pattern, piece by piece

  /** `l` is cut as [a-zA-Z0-9] then `mid` = l[1..k] in [a-zA-Z0-9-]{0,61}
      then `opt` = l[k..] in [a-zA-Z0-9]?. */
  ghost predicate LabelCut(l: string, k: int) {
    && 1 <= k <= |l|
    && k - 1 <= 61
    && |l| - k <= 1
    && IsAlnum(l[0])
    && (forall i :: 1 <= i < k ==> IsLabelChar(l[i]))
    && (forall i :: k <= i < |l| ==> IsAlnum(l[i]))
  }

  ghost predicate RegexLabel(l: string) {
    exists k :: LabelCut(l, k)
  }

  predicate AllLetters(s: string) {
    forall i :: 0 <= i < |s| ==> IsLetter(s[i])
  }

  /** `t` matches ([a-zA-Z]{2,}\.?)+ : a first group of `k >= 2` letters, an
      optional dot, then nothing or further groups. */
  ghost predicate RegexTail(t: string)
    decreases |t|, 1
  {
    exists k | 2 <= k <= |t| :: TailGroup(t, k)
  }

  ghost predicate TailGroup(t: string, k: int)
    requires 2 <= k <= |t|
    decreases |t|, 0
  {
    && AllLetters(t[..k])
    && var r := t[k..];
       || r == []
       || (r[0] == '.' && (|r| == 1 || RegexTail(r[1..])))
       || RegexTail(r)
  }

  /** The whole pattern: a label, a dot, then the letter groups. The label
      piece holds no dot, so the cut is at the first dot. */
  ghost predicate RegexMatch(s: string) {
    exists i | 0 <= i < |s| :: DotAt(s, i) && RegexLabel(s[..i]) && RegexTail(s[i + 1..])
  }

  predicate DotAt(s: string, i: int) {
    0 <= i < |s| && s[i] == '.'
  }

  // ---------------------------------------------------------------------------
  // The same language, stated directly

  /** 1 to 63 letters, digits or hyphens, starting with a letter or digit; a
      trailing hyphen is accepted unless the label is 63 characters long. */
  predicate LabelShape(l: string) {
    && 1 <= |l| <= 63
    && IsAlnum(l[0])
    && (forall i :: 1 <= i < |l| ==> IsLabelChar(l[i]))
    && (|l| == 63 ==> IsAlnum(l[62]))
  }

  /** A letter run starts at `i`: position 0 or just after a dot. */
  predicate RunStart(t: string, i: int)
    requires 0 <= i < |t|
  {
    IsLetter(t[i]) && (i == 0 || t[i - 1] == '.')
  }

  /** Letters and dots, starting with a letter, no two dots in a row, and every
      maximal run of letters at least two long. */
  predicate TailShape(t: string) {
    && |t| > 0
    && IsLetter(t[0])
    && (forall i :: 0 <= i < |t| ==> IsLetter(t[i]) || t[i] == '.')
    && (forall i :: 0 <= i < |t| - 1 ==> !(t[i] == '.' && t[i + 1] == '.'))
    && (forall i :: 0 <= i < |t| && RunStart(t, i) ==> i + 1 < |t| && IsLetter(t[i + 1]))
  }

  /** Index of the first dot in `s`, or |s| when there is none. */
  function FirstDot(s: string): (i: nat)
    ensures i <= |s|
    ensures i < |s| ==> s[i] == '.'
    ensures forall j :: 0 <= j < i ==> s[j] != '.'
  {
    if |s| == 0 || s[0] == '.' then 0 else 1 + FirstDot(s[1..])
  }

  /** `domainRegex.test(s)`. */
  predicate IsValidDomain(s: string)
  {
    var i := FirstDot(s);
    i < |s| && LabelShape(s[..i]) && TailShape(s[i + 1..])
  }

  // ---------------------------------------------------------------------------
  // Agreement

  lemma LabelAgrees(l: string)
    ensures RegexLabel(l) <==> LabelShape(l)
  {
    if LabelShape(l) {
      var k := if |l| == 63 then 62 else |l|;
      assert LabelCut(l, k);
    }
    if RegexLabel(l) {
      var k :| LabelCut(l, k);
      forall i | 1 <= i < |l|
        ensures IsLabelChar(l[i])
      {
        if i >= k { assert IsAlnum(l[i]); }
      }
    }
  }

  lemma {:induction false} TailSound(t: string)
    requires RegexTail(t)
    ensures TailShape(t)
    decreases |t|
  {
    var k :| 2 <= k <= |t| && TailGroup(t, k);
    var r := t[k..];
    assert forall i :: 0 <= i < k ==> t[i] == t[..k][i];
    if r == [] {
      assert t == t[..k];
    } else if r[0] == '.' && |r| == 1 {
      assert |t| == k + 1 && t[k] == '.';
    } else if r[0] == '.' && RegexTail(r[1..]) {
      var u := r[1..];
      TailSound(u);
      assert forall i :: k + 1 <= i < |t| ==> t[i] == u[i - (k + 1)];
      forall i | 0 <= i < |t| && RunStart(t, i)
        ensures i + 1 < |t| && IsLetter(t[i + 1])
      {
        if i > k {
          assert RunStart(u, i - (k + 1));
        }
      }
    } else {
      assert RegexTail(r);
      TailSound(r);
      assert forall i :: k <= i < |t| ==> t[i] == r[i - k];
      forall i | 0 <= i < |t| && RunStart(t, i)
        ensures i + 1 < |t| && IsLetter(t[i + 1])
      {
        if i > k {
          assert RunStart(r, i - k);
        }
      }
    }
  }

  /** Length of the leading letter run of `t`. */
  function LetterRun(t: string): (k: nat)
    ensures k <= |t|
    ensures AllLetters(t[..k])
    ensures k < |t| ==> !IsLetter(t[k])
  {
    if |t| == 0 || !IsLetter(t[0]) then 0 else 1 + LetterRun(t[1..])
  }

  lemma {:induction false} TailComplete(t: string)
    requires TailShape(t)
    ensures RegexTail(t)
    decreases |t|
  {
    var k := LetterRun(t);
    assert RunStart(t, 0);
    assert k >= 2 by {
      assert t[1..][0] == t[1];
      assert LetterRun(t[1..]) == 1 + LetterRun(t[2..]);
    }
    var r := t[k..];
    if r != [] {
      assert t[k] == '.';
      if |r| > 1 {
        var u := r[1..];
        assert forall i :: 0 <= i < |u| ==> u[i] == t[i + k + 1];
        assert t[k + 1] != '.';
        forall i | 0 <= i < |u| && RunStart(u, i)
          ensures i + 1 < |u| && IsLetter(u[i + 1])
        {
          assert RunStart(t, i + k + 1);
        }
        assert TailShape(u);
        TailComplete(u);
      }
    }
    assert TailGroup(t, k);
  }

  lemma TailAgrees(t: string)
    ensures RegexTail(t) <==> TailShape(t)
  {
    if RegexTail(t) { TailSound(t); }
    if TailShape(t) { TailComplete(t); }
  }

  /** The direct check accepts exactly the strings the pattern matches. */
  lemma ValidDomainIsRegex(s: string)
    ensures IsValidDomain(s) <==> RegexMatch(s)
  {
    if IsValidDomain(s) { ValidMatches(s); }
    if RegexMatch(s) { MatchIsValid(s); }
  }

  lemma ValidMatches(s: string)
    requires IsValidDomain(s)
    ensures RegexMatch(s)
  {
    var i := FirstDot(s);
    LabelAgrees(s[..i]);
    TailAgrees(s[i + 1..]);
    assert DotAt(s, i);
  }

  lemma MatchIsValid(s: string)
    requires RegexMatch(s)
    ensures IsValidDomain(s)
  {
    var j :| 0 <= j < |s| && DotAt(s, j) && RegexLabel(s[..j]) && RegexTail(s[j + 1..]);
    LabelAgrees(s[..j]);
    TailAgrees(s[j + 1..]);
    assert j == FirstDot(s);
  }

  /** Lower-casing keeps a valid domain valid: the check the server repeats
      on the submitted, lower-cased form still passes. */
  lemma LowerCasePreservesValidity(s: string)
    requires IsValidDomain(s)
    ensures IsValidDomain(ToLower(s))
  {
    var l := ToLower(s);
    var i := FirstDot(s);
    FirstDotLower(s);
    LowerPrefix(s, i);
    LabelLower(s[..i]);
    assert LabelShape(l[..i]);
    LowerSuffix(s, i + 1);
    TailLower(s[i + 1..]);
    assert TailShape(l[i + 1..]);
  }

  lemma LowerPrefix(s: string, i: nat)
    requires i <= |s|
    ensures ToLower(s)[..i] == ToLower(s[..i])
  {
  }

  lemma LowerSuffix(s: string, i: nat)
    requires i <= |s|
    ensures ToLower(s)[i..] == ToLower(s[i..])
  {
  }

  lemma LabelLower(l: string)
    requires LabelShape(l)
    ensures LabelShape(ToLower(l))
  {
    var l' := ToLower(l);
    assert IsAlnum(l'[0]);
    assert forall i :: 1 <= i < |l'| ==> IsLabelChar(l'[i]);
  }

  lemma TailLower(t: string)
    requires TailShape(t)
    ensures TailShape(ToLower(t))
  {
    var t' := ToLower(t);
    forall j | 0 <= j < |t'| && RunStart(t', j)
      ensures j + 1 < |t'| && IsLetter(t'[j + 1])
    {
      assert RunStart(t, j);
    }
  }

  lemma {:induction false} FirstDotLower(s: string)
    ensures FirstDot(ToLower(s)) == FirstDot(s)
    decreases |s|
  {
    if |s| > 0 {
      assert ToLower(s)[1..] == ToLower(s[1..]);
      FirstDotLower(s[1..]);
    }
  }

  /** A label of letters and a suffix of two or more letters make a valid
      domain. */
  lemma LetterDomain(name: string, suffix: string)
    requires 1 <= |name| <= 63 && AllLetters(name)
    requires 2 <= |suffix| && AllLetters(suffix)
    ensures IsValidDomain(name + "." + suffix)
  {
    var s := name + "." + suffix;
    var i := FirstDot(s);
    assert s[|name|] == '.';
    assert forall j :: 0 <= j < |name| ==> s[j] == name[j];
    assert i == |name|;
    assert s[..i] == name;
    assert s[i + 1..] == suffix;
  }

  /** The pattern departs from the label rules of section 2.3.1 of RFC 1035
      in two ways. First, a label shorter than 63 characters may end with a
      hyphen. */
  lemma HyphenEndedLabel()
    ensures IsValidDomain("a-.com")
  {
    var s := "a-.com";
    assert FirstDot(s) == 2 by {
      assert s[1..] == "-.com";
      assert "-.com"[1..] == ".com";
    }
    var t := "com";
    assert s[3..] == t;
    assert s[..2] == "a-";
    assert RunStart(t, 0);
    assert forall i :: 0 <= i < 3 && RunStart(t, i) ==> i == 0;
  }

  /** Second, the part after the first dot may hold only letters and dots, so
      a hyphenated label there is refused. */
  lemma HyphenInTail()
    ensures !IsValidDomain("a.b-c.com")
  {
    var s := "a.b-c.com";
    assert FirstDot(s) == 1 by {
      assert s[1..] == ".b-c.com";
    }
    assert s[2..][1] == '-';
  }
}
