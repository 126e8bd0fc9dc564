/** The vulnerabilities card: issue strings bucketed into severity tiers by
    the words they mention, and the slices shown before "View All". */
module VulnerabilitiesCard {
  import opened Text
  import opened Seqs
  import Analysis

  const IssuesShown: nat := 5
  const RecommendationsShown: nat := 3

  datatype Severity = Critical | High | Medium | Low

  /** The lower-cased issue mentions `word`. */
  predicate Mentions(issue: string, word: string) {
    Contains(ToLower(issue), word)
  }

  predicate CriticalWords(issue: string) {
    Mentions(issue, "heartbleed") || Mentions(issue, "poodle") || Mentions(issue, "freak")
  }

  predicate HighWords(issue: string) {
    Mentions(issue, "drown") || Mentions(issue, "logjam")
  }

  /** The tier of one issue: the first tier whose words it mentions. */
  function SeverityOf(issue: string): (s: Severity)
    ensures s == Critical <==> CriticalWords(issue)
    ensures s == High <==> !CriticalWords(issue) && HighWords(issue)
    ensures s == Medium <==> !CriticalWords(issue) && !HighWords(issue) && Mentions(issue, "rc4")
    ensures s == Low <==> !CriticalWords(issue) && !HighWords(issue) && !Mentions(issue, "rc4")
  {
    if CriticalWords(issue) then Critical
    else if HighWords(issue) then High
    else if Mentions(issue, "rc4") then Medium
    else Low
  }

  datatype Counts = Counts(critical: nat, high: nat, medium: nat, low: nat)

  /** Number of issues in tier `s`. */
  function InTier(issues: seq<string>, s: Severity): (n: nat)
    ensures n <= |issues|
  {
    if |issues| == 0 then 0
    else InTier(issues[..|issues| - 1], s) + if SeverityOf(issues[|issues| - 1]) == s then 1 else 0
  }

  /** `getVulnerabilityCount`. */
  method VulnerabilityCount(issues: seq<string>) returns (c: Counts)
    ensures c.critical + c.high + c.medium + c.low == |issues|
    ensures c.critical == InTier(issues, Critical) && c.high == InTier(issues, High)
    ensures c.medium == InTier(issues, Medium) && c.low == InTier(issues, Low)
  {
    c := Counts(0, 0, 0, 0);
    var i := 0;
    while i < |issues|
      invariant 0 <= i <= |issues|
      invariant c.critical + c.high + c.medium + c.low == i
      invariant c.critical == InTier(issues[..i], Critical) && c.high == InTier(issues[..i], High)
      invariant c.medium == InTier(issues[..i], Medium) && c.low == InTier(issues[..i], Low)
    {
      var tier := SeverityOf(issues[i]);
      InTierStep(issues, i, Critical);
      InTierStep(issues, i, High);
      InTierStep(issues, i, Medium);
      InTierStep(issues, i, Low);
      if tier == Critical {
        c := c.(critical := c.critical + 1);
      } else if tier == High {
        c := c.(high := c.high + 1);
      } else if tier == Medium {
        c := c.(medium := c.medium + 1);
      } else {
        c := c.(low := c.low + 1);
      }
      i := i + 1;
    }
    assert issues[..i] == issues;
  }

  lemma InTierStep(issues: seq<string>, i: nat, s: Severity)
    requires i < |issues|
    ensures InTier(issues[..i + 1], s) == InTier(issues[..i], s) + if SeverityOf(issues[i]) == s then 1 else 0
  {
    assert issues[..i + 1][..i] == issues[..i];
  }

  /** The four tiers split the list: every issue is counted exactly once. */
  lemma {:induction false} TiersPartition(issues: seq<string>)
    ensures InTier(issues, Critical) + InTier(issues, High) + InTier(issues, Medium) + InTier(issues, Low)
            == |issues|
    decreases |issues|
  {
    if |issues| > 0 {
      TiersPartition(issues[..|issues| - 1]);
    }
  }

  /** The card's headline: is there anything to report. */
  function HasIssues(issues: seq<string>): (b: bool)
    ensures b <==> exists s :: InTier(issues, s) > 0
  {
    if |issues| > 0 then
      TiersPartition(issues);
      true
    else
      assert forall s :: InTier(issues, s) == 0;
      false
  }

  // ---------------------------------------------------------------------------
  // The server's messages land in their intended tiers

  /** A word holding a character the text lacks is not in the text. */
  lemma AbsentLetter(s: string, word: string, k: nat)
    requires k < |word| && word[k] !in s
    ensures !Contains(s, word)
  {
    forall i | 0 <= i <= |s| - |word|
      ensures !OccursAt(s, word, i)
    {
      assert s[i + k] in s;
      assert s[i..i + |word|][k] == s[i + k];
    }
  }

  /** The lower-cased text lacks `c` when the text has neither case of it. */
  lemma LowerLacks(s: string, c: char)
    requires 'a' <= c <= 'z'
    requires forall j :: 0 <= j < |s| ==> s[j] != c && s[j] as int != c as int - 32
    ensures c !in ToLower(s)
  {
    var t := ToLower(s);
    forall j | 0 <= j < |t|
      ensures t[j] != c
    {
      assert t[j] == LowerChar(s[j]);
    }
  }

  /** Text beginning with `word` in any case mentions it. */
  lemma LeadingWord(s: string, word: string)
    requires |word| <= |s|
    requires forall j :: 0 <= j < |word| ==> LowerChar(s[j]) == word[j]
    ensures Mentions(s, word)
  {
    var t := ToLower(s);
    assert t[..|word|] == word;
    assert OccursAt(t, word, 0);
  }

  lemma HeartbleedMessage()
    ensures SeverityOf(Analysis.IssueMessages[0]) == Critical
  {
    assert Analysis.IssueMessages[0] == "Heartbleed vulnerability detected";
    LeadingWord("Heartbleed vulnerability detected", "heartbleed");
  }

  lemma PoodleMessage()
    ensures SeverityOf(Analysis.IssueMessages[1]) == Critical
  {
    assert Analysis.IssueMessages[1] == "POODLE vulnerability detected";
    LeadingWord("POODLE vulnerability detected", "poodle");
  }

  lemma FreakMessage()
    ensures SeverityOf(Analysis.IssueMessages[2]) == Critical
  {
    assert Analysis.IssueMessages[2] == "FREAK vulnerability detected";
    LeadingWord("FREAK vulnerability detected", "freak");
  }

  /** A message with no 'h', 'p' or 'f' in either case mentions no critical
      word. */
  lemma NotCritical(m: string)
    requires forall j :: 0 <= j < |m| ==> m[j] !in "hHpPfF"
    ensures !CriticalWords(m)
  {
    LowerLacks(m, 'h');
    AbsentLetter(ToLower(m), "heartbleed", 0);
    LowerLacks(m, 'p');
    AbsentLetter(ToLower(m), "poodle", 0);
    LowerLacks(m, 'f');
    AbsentLetter(ToLower(m), "freak", 0);
  }

  /** An issue that starts with "logjam" or "drown" and has no letter of
      the critical words' first letters is high. */
  lemma HighTier(m: string, word: string)
    requires word == "logjam" || word == "drown"
    requires forall j :: 0 <= j < |m| ==> m[j] !in "hHpPfF"
    requires |word| <= |m| && forall j :: 0 <= j < |word| ==> LowerChar(m[j]) == word[j]
    ensures SeverityOf(m) == High
  {
    NotCritical(m);
    LeadingWord(m, word);
  }

  lemma LogjamMessage()
    ensures SeverityOf(Analysis.IssueMessages[3]) == High
  {
    var m := "Logjam vulnerability detected";
    assert Analysis.IssueMessages[3] == m;
    HighTier(m, "logjam");
  }

  lemma DrownMessage()
    ensures SeverityOf(Analysis.IssueMessages[4]) == High
  {
    var m := "DROWN vulnerability detected";
    assert Analysis.IssueMessages[4] == m;
    HighTier(m, "drown");
  }

  /** A message with no 'b', 'l' or 'k' in either case mentions no critical
      word. */
  lemma NoCriticalLetters(m: string)
    requires forall j :: 0 <= j < |m| ==> m[j] !in "bBlLkK"
    ensures !CriticalWords(m)
  {
    LowerLacks(m, 'b');
    AbsentLetter(ToLower(m), "heartbleed", 5);
    LowerLacks(m, 'l');
    AbsentLetter(ToLower(m), "poodle", 4);
    LowerLacks(m, 'k');
    AbsentLetter(ToLower(m), "freak", 4);
  }

  /** A message with no 'w' or 'g' in either case mentions no high word. */
  lemma NoHighLetters(m: string)
    requires forall j :: 0 <= j < |m| ==> m[j] !in "wWgG"
    ensures !HighWords(m)
  {
    LowerLacks(m, 'w');
    AbsentLetter(ToLower(m), "drown", 3);
    LowerLacks(m, 'g');
    AbsentLetter(ToLower(m), "logjam", 2);
  }

  /** An issue that starts with "rc4" and lacks a letter from each critical
      and high word is medium. */
  lemma MediumTier(m: string)
    requires forall j :: 0 <= j < |m| ==> m[j] !in "bBlLkKwWgG"
    requires 3 <= |m| && forall j :: 0 <= j < 3 ==> LowerChar(m[j]) == "rc4"[j]
    ensures SeverityOf(m) == Medium
  {
    NoCriticalLetters(m);
    NoHighLetters(m);
    LeadingWord(m, "rc4");
  }

  lemma Rc4Message()
    ensures SeverityOf(Analysis.IssueMessages[5]) == Medium
  {
    var m := "RC4 cipher support detected";
    assert Analysis.IssueMessages[5] == m;
    MediumTier(m);
  }

  // ---------------------------------------------------------------------------
  // What is displayed

  /** The issues rendered: all when expanded, otherwise the first five. */
  function ShownIssues(issues: seq<string>, showAll: bool): (r: seq<string>)
    ensures r <= issues
    ensures |r| == if showAll then |issues| else Min(IssuesShown, |issues|)
  {
    if showAll then issues else Take(issues, IssuesShown)
  }

  /** The recommendations rendered: all when expanded, otherwise the first
      three. */
  function ShownRecommendations(recommendations: seq<string>, showAll: bool): (r: seq<string>)
    ensures r <= recommendations
    ensures |r| == if showAll then |recommendations| else Min(RecommendationsShown, |recommendations|)
  {
    if showAll then recommendations else Take(recommendations, RecommendationsShown)
  }
}
