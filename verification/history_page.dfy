/** The history page's list view: the analysis history narrowed by the
    search box, the grade filter and the favourites switch, then sorted. */
module HistoryPage {
  import opened Text
  import opened Seqs
  import opened HistoryService

  const AllGrades: string := "all"
  const ByDomain: string := "domain"
  const ByGrade: string := "grade"

  /** `item.domain.toLowerCase().includes(query.toLowerCase())` when a query
      is typed. */
  predicate MatchesQuery(item: AnalysisItem, query: string) {
    query == "" || Contains(ToLower(item.domain), ToLower(query))
  }

  predicate MatchesGrade(item: AnalysisItem, gradeFilter: string) {
    gradeFilter == AllGrades || item.grade == gradeFilter
  }

  predicate MatchesFavorite(item: AnalysisItem, favoritesOnly: bool) {
    !favoritesOnly || item.isFavorite
  }

  /** An item survives all the active filters. */
  predicate Shown(item: AnalysisItem, query: string, gradeFilter: string, favoritesOnly: bool) {
    MatchesQuery(item, query) && MatchesGrade(item, gradeFilter) && MatchesFavorite(item, favoritesOnly)
  }

  /** The sort comparator as "a may come before b": `localeLe` stands in for
      `localeCompare(...) <= 0`; the timestamp order (also used for any other
      key) puts newer first. */
  function Order(sortBy: string, localeLe: (string, string) -> bool): (AnalysisItem, AnalysisItem) -> bool {
    if sortBy == ByDomain then (a: AnalysisItem, b: AnalysisItem) => localeLe(a.domain, b.domain)
    else if sortBy == ByGrade then (a: AnalysisItem, b: AnalysisItem) => localeLe(a.grade, b.grade)
    else (a: AnalysisItem, b: AnalysisItem) => a.timestamp >= b.timestamp
  }

  /** Every sort order is a total preorder when the locale order is. */
  lemma OrderIsPreorder(sortBy: string, localeLe: (string, string) -> bool)
    requires TotalPreorder(localeLe)
    ensures TotalPreorder(Order(sortBy, localeLe))
  {
    var le := Order(sortBy, localeLe);
    if sortBy == ByDomain {
      forall a: AnalysisItem, b: AnalysisItem, c: AnalysisItem
        ensures le(a, b) || le(b, a)
        ensures le(a, b) && le(b, c) ==> le(a, c)
      {
        assert localeLe(a.domain, b.domain) || localeLe(b.domain, a.domain);
        assert localeLe(a.domain, b.domain) && localeLe(b.domain, c.domain) ==> localeLe(a.domain, c.domain);
      }
    } else if sortBy == ByGrade {
      forall a: AnalysisItem, b: AnalysisItem, c: AnalysisItem
        ensures le(a, b) || le(b, a)
        ensures le(a, b) && le(b, c) ==> le(a, c)
      {
        assert localeLe(a.grade, b.grade) || localeLe(b.grade, a.grade);
        assert localeLe(a.grade, b.grade) && localeLe(b.grade, c.grade) ==> localeLe(a.grade, c.grade);
      }
    }
  }

  /** `filterAndSortHistory`. */
  function FilterAndSort(history: seq<AnalysisItem>, query: string, gradeFilter: string,
                         favoritesOnly: bool, sortBy: string,
                         localeLe: (string, string) -> bool): (r: seq<AnalysisItem>)
    requires TotalPreorder(localeLe)
    ensures forall x :: multiset(r)[x]
                        == if Shown(x, query, gradeFilter, favoritesOnly) then multiset(history)[x] else 0
    ensures Sorted(r, Order(sortBy, localeLe))
  {
    var byQuery := if query != "" then Filter(history, (item: AnalysisItem) => MatchesQuery(item, query)) else history;
    var byGrade := if gradeFilter != AllGrades then Filter(byQuery, (item: AnalysisItem) => MatchesGrade(item, gradeFilter)) else byQuery;
    var byFavorite := if favoritesOnly then Filter(byGrade, (item: AnalysisItem) => item.isFavorite) else byGrade;
    OrderIsPreorder(sortBy, localeLe);
    SortBy(byFavorite, Order(sortBy, localeLe))
  }

  /** Every listed item satisfies each active filter. */
  lemma ListedItemsMatch(history: seq<AnalysisItem>, query: string, gradeFilter: string,
                         favoritesOnly: bool, sortBy: string, localeLe: (string, string) -> bool)
    requires TotalPreorder(localeLe)
    ensures var r := FilterAndSort(history, query, gradeFilter, favoritesOnly, sortBy, localeLe);
      forall i :: 0 <= i < |r| ==>
        && (query != "" ==> Contains(ToLower(r[i].domain), ToLower(query)))
        && (gradeFilter != AllGrades ==> r[i].grade == gradeFilter)
        && (favoritesOnly ==> r[i].isFavorite)
        && r[i] in history
  {
    var r := FilterAndSort(history, query, gradeFilter, favoritesOnly, sortBy, localeLe);
    forall i | 0 <= i < |r|
      ensures Shown(r[i], query, gradeFilter, favoritesOnly) && r[i] in history
    {
      ListedItemShown(r, history, query, gradeFilter, favoritesOnly, r[i]);
    }
  }

  lemma ListedItemShown(r: seq<AnalysisItem>, history: seq<AnalysisItem>, query: string,
                        gradeFilter: string, favoritesOnly: bool, x: AnalysisItem)
    requires forall y :: multiset(r)[y]
                         == if Shown(y, query, gradeFilter, favoritesOnly) then multiset(history)[y] else 0
    requires x in r
    ensures Shown(x, query, gradeFilter, favoritesOnly) && x in history
  {
    assert multiset(r)[x] > 0;
  }

  /** With no filter active, the page lists the whole history. */
  lemma NoFilterShowsAll(history: seq<AnalysisItem>, sortBy: string, localeLe: (string, string) -> bool)
    requires TotalPreorder(localeLe)
    ensures multiset(FilterAndSort(history, "", AllGrades, false, sortBy, localeLe)) == multiset(history)
  {
    var r := FilterAndSort(history, "", AllGrades, false, sortBy, localeLe);
    assert forall x :: multiset(r)[x] == multiset(history)[x];
  }
}
