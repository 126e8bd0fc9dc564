/** The browser-side history: a search list and an analysis list, each
    ordered most recent first and keyed by domain. The stored list is the
    state; each operation maps the list it reads to the list it writes. */
module HistoryService {
  import opened Wrappers
  import opened Seqs

  const MaxHistoryItems: nat := 50
  const MaxSearchItems: nat := 20
  const UnknownGrade: string := "Unknown"

  datatype SearchItem = SearchItem(domain: string, timestamp: int, searchCount: int)

  /** The part of an analysis result the history reads:
      `result?.sslLabs?.grade`. */
  datatype AnalysisResult = AnalysisResult(sslLabsGrade: Option<string>)

  datatype AnalysisItem = AnalysisItem(domain: string, timestamp: int, result: AnalysisResult,
                                       grade: string, isFavorite: bool)

  /** `findIndex(item => key(item) === d)`, with -1 for "absent". */
  function FindIndex<T>(xs: seq<T>, key: T -> string, d: string): (i: int)
    ensures -1 <= i < |xs|
    ensures i >= 0 ==> key(xs[i]) == d
    ensures forall j :: 0 <= j < |xs| && (i < 0 || j < i) ==> key(xs[j]) != d
    decreases |xs|
  {
    if |xs| == 0 then -1
    else if key(xs[0]) == d then 0
    else
      var k := FindIndex(xs[1..], key, d);
      if k < 0 then -1 else k + 1
  }

  /** No two entries share a key. */
  predicate DistinctKeys<T>(xs: seq<T>, key: T -> string) {
    forall i, j :: 0 <= i < j < |xs| ==> key(xs[i]) != key(xs[j])
  }

  function SearchDomain(item: SearchItem): string { item.domain }
  function AnalysisDomain(item: AnalysisItem): string { item.domain }

  // ---------------------------------------------------------------------------
  // Search history

  /** `addToSearchHistory(domain)` at time `now`. */
  function AddToSearch(history: seq<SearchItem>, domain: string, now: int): (r: seq<SearchItem>)
    ensures |r| <= MaxSearchItems
    ensures var i := FindIndex(history, SearchDomain, domain);
      i >= 0 ==>
        && |r| == Min(MaxSearchItems, |history|)
        && (i < |r| ==> r[i] == SearchItem(domain, now, history[i].searchCount + 1))
        && (forall j :: 0 <= j < |r| && j != i ==> r[j] == history[j])
    ensures var i := FindIndex(history, SearchDomain, domain);
      i < 0 ==>
        && |r| == Min(MaxSearchItems, |history| + 1)
        && r[0] == SearchItem(domain, now, 1)
        && (forall j :: 1 <= j < |r| ==> r[j] == history[j - 1])
    ensures DistinctKeys(history, SearchDomain) ==> DistinctKeys(r, SearchDomain)
  {
    var i := FindIndex(history, SearchDomain, domain);
    if i >= 0 then
      Take(history[i := history[i].(timestamp := now, searchCount := history[i].searchCount + 1)],
           MaxSearchItems)
    else
      Take([SearchItem(domain, now, 1)] + history, MaxSearchItems)
  }

  // ---------------------------------------------------------------------------
  // Analysis history

  /** `result?.sslLabs?.grade || 'Unknown'`. */
  function GradeOf(result: AnalysisResult): (g: string)
    ensures |g| > 0
    ensures g == UnknownGrade <==> result.sslLabsGrade.None? || result.sslLabsGrade == Some("")
                                   || result.sslLabsGrade == Some(UnknownGrade)
    ensures g != UnknownGrade ==> result.sslLabsGrade == Some(g)
  {
    match result.sslLabsGrade
    case Some(g) => if |g| > 0 then g else UnknownGrade
    case None => UnknownGrade
  }

  /** `addToAnalysisHistory(domain, result)` at time `now`. */
  function AddToAnalysis(history: seq<AnalysisItem>, domain: string, result: AnalysisResult,
                         now: int): (r: seq<AnalysisItem>)
    ensures |r| <= MaxHistoryItems
    ensures var i := FindIndex(history, AnalysisDomain, domain);
      i >= 0 ==>
        && |r| == Min(MaxHistoryItems, |history|)
        && (i < |r| ==> r[i] == AnalysisItem(domain, now, result, GradeOf(result), history[i].isFavorite))
        && (forall j :: 0 <= j < |r| && j != i ==> r[j] == history[j])
    ensures var i := FindIndex(history, AnalysisDomain, domain);
      i < 0 ==>
        && |r| == Min(MaxHistoryItems, |history| + 1)
        && r[0] == AnalysisItem(domain, now, result, GradeOf(result), false)
        && (forall j :: 1 <= j < |r| ==> r[j] == history[j - 1])
    ensures DistinctKeys(history, AnalysisDomain) ==> DistinctKeys(r, AnalysisDomain)
  {
    var i := FindIndex(history, AnalysisDomain, domain);
    var item := AnalysisItem(domain, now, result, GradeOf(result),
                             if i >= 0 then history[i].isFavorite else false);
    if i >= 0 then Take(history[i := item], MaxHistoryItems)
    else Take([item] + history, MaxHistoryItems)
  }

  /** Re-analysing a favourite keeps it a favourite. */
  lemma AddKeepsFavorite(history: seq<AnalysisItem>, domain: string, result: AnalysisResult, now: int)
    requires DistinctKeys(history, AnalysisDomain)
    ensures var r := AddToAnalysis(history, domain, result, now);
      forall j :: 0 <= j < |r| && j < |history| && history[j].domain == domain ==>
        r[j].isFavorite == history[j].isFavorite
  {
    var i := FindIndex(history, AnalysisDomain, domain);
    forall j | 0 <= j < |history| && history[j].domain == domain
      ensures j == i
    {
      assert AnalysisDomain(history[j]) == domain;
    }
  }

  /** `removeFromAnalysisHistory(domain)`. */
  function Remove(history: seq<AnalysisItem>, domain: string): (r: seq<AnalysisItem>)
    ensures forall j :: 0 <= j < |r| ==> r[j].domain != domain
    ensures forall x: AnalysisItem :: x.domain != domain ==> multiset(r)[x] == multiset(history)[x]
  {
    Filter(history, (item: AnalysisItem) => item.domain != domain)
  }

  /** Removal keeps the remaining entries in their order, and removing twice
      is removing once. */
  lemma RemoveOrderIdempotent(history: seq<AnalysisItem>, domain: string)
    ensures IsSubsequence(Remove(history, domain), history)
    ensures Remove(Remove(history, domain), domain) == Remove(history, domain)
  {
    FilterSubsequence(history, (item: AnalysisItem) => item.domain != domain);
    FilterIdempotent(history, (item: AnalysisItem) => item.domain != domain);
  }

  /** `toggleFavorite(domain)`: the new list and the returned flag. */
  function ToggleFavorite(history: seq<AnalysisItem>, domain: string): (r: (seq<AnalysisItem>, bool))
    ensures |r.0| == |history|
    ensures var i := FindIndex(history, AnalysisDomain, domain);
      i >= 0 ==>
        && r.0[i].isFavorite == !history[i].isFavorite
        && r.0[i].(isFavorite := history[i].isFavorite) == history[i]
        && (forall j :: 0 <= j < |history| && j != i ==> r.0[j] == history[j])
        && r.1 == r.0[i].isFavorite
    ensures FindIndex(history, AnalysisDomain, domain) < 0 ==> r == (history, false)
  {
    var i := FindIndex(history, AnalysisDomain, domain);
    if i >= 0 then
      var flipped := history[i].(isFavorite := !history[i].isFavorite);
      (history[i := flipped], flipped.isFavorite)
    else (history, false)
  }

  /** Toggling twice restores the list. */
  lemma ToggleTwice(history: seq<AnalysisItem>, domain: string)
    ensures ToggleFavorite(ToggleFavorite(history, domain).0, domain).0 == history
  {
    var once := ToggleFavorite(history, domain).0;
    var i := FindIndex(history, AnalysisDomain, domain);
    if i >= 0 {
      FindIndexUnchanged(history, once, domain, i);
    }
  }

  /** Two lists with the same domains up to and including `i` find `domain`
      at the same place. */
  lemma {:induction false} FindIndexUnchanged(a: seq<AnalysisItem>, b: seq<AnalysisItem>, domain: string, i: int)
    requires |a| == |b| && 0 <= i < |a|
    requires forall j :: 0 <= j <= i ==> a[j].domain == b[j].domain
    requires FindIndex(a, AnalysisDomain, domain) == i
    ensures FindIndex(b, AnalysisDomain, domain) == i
    decreases i
  {
    if i > 0 {
      FindIndexUnchanged(a[1..], b[1..], domain, i - 1);
    }
  }

  /** `getFavorites()`. */
  function GetFavorites(history: seq<AnalysisItem>): (r: seq<AnalysisItem>)
    ensures forall j :: 0 <= j < |r| ==> r[j].isFavorite
    ensures forall x: AnalysisItem :: x.isFavorite ==> multiset(r)[x] == multiset(history)[x]
  {
    Filter(history, (item: AnalysisItem) => item.isFavorite)
  }

  /** Favourites come in history order. */
  lemma FavoritesInOrder(history: seq<AnalysisItem>)
    ensures IsSubsequence(GetFavorites(history), history)
  {
    FilterSubsequence(history, (item: AnalysisItem) => item.isFavorite);
  }
}
