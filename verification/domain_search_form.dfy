/** The search form's decisions: what a submit sends, what a typed value
    shows, and which recent searches are offered as suggestions. */
module DomainSearchForm {
  import opened Wrappers
  import opened Text
  import opened Seqs
  import opened DomainRegex
  import Analysis

  const EmptyError: string := "Please enter a domain name"
  const InvalidError: string := "Please enter a valid domain name (e.g., example.com)"
  const MaxShownSuggestions: nat := 5

  /** What a submit does: show an error, or hand a domain to `onSubmit`. */
  datatype Outcome = ShowError(message: string) | Submit(domain: string)

  /** `handleSubmit` on the current input. */
  function HandleSubmit(input: string): (o: Outcome)
    ensures o.ShowError? <==> AllWhitespace(input) || !IsValidDomain(Trim(input))
    ensures AllWhitespace(input) ==> o == ShowError(EmptyError)
    ensures !AllWhitespace(input) && !IsValidDomain(Trim(input)) ==> o == ShowError(InvalidError)
    ensures o.Submit? ==> o.domain == ToLower(Trim(input))
  {
    var trimmed := Trim(input);
    if trimmed == "" then ShowError(EmptyError)
    else if !IsValidDomain(trimmed) then ShowError(InvalidError)
    else Submit(ToLower(trimmed))
  }

  /** Whatever the form submits, the server's validation accepts unchanged. */
  lemma SubmittedDomainAccepted(input: string)
    requires HandleSubmit(input).Submit?
    ensures var d := HandleSubmit(input).domain;
      IsValidDomain(d) && Analysis.ValidateDomain(Some(d)) == Ok(d)
  {
    LowerCasePreservesValidity(Trim(input));
  }

  /** The form's state after a keystroke: the new value, a cleared error and
      whether the suggestion list opens. */
  datatype InputState = InputState(domain: string, error: string, showSuggestions: bool)

  /** `handleInputChange`. */
  function InputChange(value: string, recentSearches: seq<Option<string>>): (s: InputState)
    ensures s.domain == value && s.error == ""
    ensures s.showSuggestions <==> |value| > 0 && |recentSearches| > 0
  {
    InputState(value, "", |value| > 0 && |recentSearches| > 0)
  }

  /** `handleSuggestionClick`: a suggestion or an example is submitted as it
      stands. */
  function SuggestionClick(suggestion: string): (o: Outcome)
    ensures o.Submit? && o.domain == suggestion
  {
    Submit(suggestion)
  }

  /** A click skips the checks a typed submit goes through: a blank
      suggestion is sent although typing it would be refused. */
  lemma SuggestionBypassesChecks()
    ensures HandleSubmit(" ") == ShowError(EmptyError)
    ensures SuggestionClick(" ") == Submit(" ")
    ensures Analysis.ValidateDomain(Some(" ")) == Err(Analysis.InvalidFormat)
  {
    assert FirstDot(" ") == 1;
  }

  /** Input already trimmed, lower-case and valid is submitted unchanged. */
  lemma PlainDomainSubmitted(s: string)
    requires forall i :: 0 <= i < |s| ==> ('a' <= s[i] <= 'z' || s[i] == '.')
    requires IsValidDomain(s)
    ensures HandleSubmit(s) == Submit(s)
  {
    TrimFixed(s);
    LowerCaseFixed(s);
  }

  /** A lower-case `.com` name passes the typed checks unchanged. */
  lemma LowerComDomain(name: string)
    requires 1 <= |name| <= 63
    requires forall i :: 0 <= i < |name| ==> 'a' <= name[i] <= 'z'
    ensures HandleSubmit(name + ".com") == Submit(name + ".com")
  {
    var s := name + ".com";
    assert s == name + "." + "com";
    LetterDomain(name, "com");
    forall i | 0 <= i < |s|
      ensures 'a' <= s[i] <= 'z' || s[i] == '.'
    {
      if i >= |name| {
        assert s[i] == ".com"[i - |name|];
      }
    }
    PlainDomainSubmitted(s);
  }

  /** A recent search offered for `input`: a non-empty string containing the
      input, case aside. Entries that are not strings are `None`. */
  predicate Offered(search: string, input: string) {
    |search| > 0 && Contains(ToLower(search), ToLower(input))
  }

  /** `filteredSuggestions`. */
  function FilteredSuggestions(recentSearches: seq<Option<string>>, input: string): (r: seq<string>)
    ensures forall i :: 0 <= i < |r| ==> Offered(r[i], input)
    ensures forall x :: multiset(r)[x] == if Offered(x, input) then multiset(recentSearches)[Some(x)] else 0
    ensures IsSubsequence(r, Present(recentSearches))
  {
    KeepInOrder(recentSearches, (x: string) => Offered(x, input));
    Keep(recentSearches, (x: string) => Offered(x, input))
  }

  /** The strings among the stored searches that pass `ok`, in stored order. */
  function Keep(xs: seq<Option<string>>, ok: string -> bool): (r: seq<string>)
    ensures forall i :: 0 <= i < |r| ==> ok(r[i])
    ensures forall x :: multiset(r)[x] == if ok(x) then multiset(xs)[Some(x)] else 0
  {
    if |xs| == 0 then []
    else
      var rest := Keep(xs[1..], ok);
      var head := if xs[0].Some? && ok(xs[0].value) then [xs[0].value] else [];
      KeepStep(xs, ok, head, rest);
      AllPass(head, rest, ok);
      head + rest
  }

  /** What `Keep` keeps stays in stored order. */
  lemma {:induction false} KeepInOrder(xs: seq<Option<string>>, ok: string -> bool)
    ensures IsSubsequence(Keep(xs, ok), Present(xs))
    decreases |xs|
  {
    if |xs| > 0 {
      KeepInOrder(xs[1..], ok);
      var head := if xs[0].Some? && ok(xs[0].value) then [xs[0].value] else [];
      KeepOrder(xs, ok, head, Keep(xs[1..], ok));
    }
  }

  /** Two lists whose elements all pass `ok` join into one that does. */
  lemma AllPass<T>(a: seq<T>, b: seq<T>, ok: T -> bool)
    requires forall i :: 0 <= i < |a| ==> ok(a[i])
    requires forall i :: 0 <= i < |b| ==> ok(b[i])
    ensures forall i :: 0 <= i < |a + b| ==> ok((a + b)[i])
  {
    forall i | 0 <= i < |a + b|
      ensures ok((a + b)[i])
    {
      if i >= |a| {
        assert (a + b)[i] == b[i - |a|];
      }
    }
  }

  /** The strings among the stored searches, in stored order. */
  function Present(xs: seq<Option<string>>): (r: seq<string>)
    ensures |r| <= |xs|
    ensures forall x :: multiset(r)[x] == multiset(xs)[Some(x)]
  {
    if |xs| == 0 then []
    else
      var rest := Present(xs[1..]);
      KeepStep(xs, (x: string) => true, if xs[0].Some? then [xs[0].value] else [], rest);
      (if xs[0].Some? then [xs[0].value] else []) + rest
  }

  /** Keeping the first entry's string in front of what the rest keeps does
      not reorder the stored searches. */
  lemma KeepOrder(xs: seq<Option<string>>, ok: string -> bool, head: seq<string>, rest: seq<string>)
    requires |xs| > 0
    requires head == if xs[0].Some? && ok(xs[0].value) then [xs[0].value] else []
    requires IsSubsequence(rest, Present(xs[1..]))
    ensures IsSubsequence(head + rest, Present(xs))
  {
    var p := Present(xs);
    if xs[0].Some? {
      assert p[0] == xs[0].value && p[1..] == Present(xs[1..]);
      if head != [] {
        assert (head + rest)[0] == p[0] && (head + rest)[1..] == rest;
      } else {
        assert head + rest == rest;
      }
    } else {
      assert p == Present(xs[1..]);
      assert head + rest == rest;
    }
  }

  /** One step of keeping the strings that satisfy `ok`: the first entry's
      contribution joined to what the rest keeps. */
  lemma KeepStep(xs: seq<Option<string>>, ok: string -> bool, head: seq<string>, rest: seq<string>)
    requires |xs| > 0
    requires head == if xs[0].Some? && ok(xs[0].value) then [xs[0].value] else []
    requires forall x :: multiset(rest)[x] == if ok(x) then multiset(xs[1..])[Some(x)] else 0
    ensures forall x :: multiset(head + rest)[x] == if ok(x) then multiset(xs)[Some(x)] else 0
  {
    assert xs == [xs[0]] + xs[1..];
    assert multiset(xs) == multiset{xs[0]} + multiset(xs[1..]);
    assert multiset(head + rest) == multiset(head) + multiset(rest);
  }

  /** The rendered suggestions: the first five offered ones. */
  function ShownSuggestions(recentSearches: seq<Option<string>>, input: string): (r: seq<string>)
    ensures |r| == Min(MaxShownSuggestions, |FilteredSuggestions(recentSearches, input)|)
    ensures r <= FilteredSuggestions(recentSearches, input)
  {
    Take(FilteredSuggestions(recentSearches, input), MaxShownSuggestions)
  }
}
