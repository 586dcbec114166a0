/**
 * `fetch_problem_list` of scraper.py with the browser calls taken out. For
 * each of the five difficulty tabs the page shows a tab text (or no tab), the
 * outcome of clicking it, and the problem list that appears after the click
 * (or none, when waiting for it or reading it fails).
 */
module ProblemList {
  import opened PyText

  datatype Problem = Problem(question: string, questionUrl: string)

  /**
   * One difficulty tab: the tab's `inner_text()` (None when no tab matches),
   * the error raised by `click()` (None when it succeeds), and the problems
   * read from the list (None when `wait_for_selector` or `evaluate` raises).
   */
  datatype CategoryView = CategoryView(tabText: Option<string>, clickError: Option<string>, loaded: Option<seq<Problem>>)

  /** The views of the five tabs, in the order of `Difficulties`. */
  type FiveViews = v: seq<CategoryView> | |v| == 5
    witness [CategoryView(None, None, None), CategoryView(None, None, None), CategoryView(None, None, None),
             CategoryView(None, None, None), CategoryView(None, None, None)]

  /**
   * The activity page: a Playwright call that raised before or during the
   * loop, other than a click (navigation, or reading a tab text), or whether
   * the navbar exists and what each tab shows.
   */
  datatype ProblemPage =
    | ListRaised(message: string)
    | ListLoaded(hasNavbar: bool, views: FiveViews)

  /** The result dict, its two inner dicts as key/value lists in insertion order. */
  datatype ProblemListResult =
    | ProblemListRecord(userName: string, problemsByDifficulty: seq<(string, nat)>,
                        problems: seq<(string, seq<Problem>)>)
    | ProblemListError(error: string, userName: string)

  const Difficulties: seq<string> := ["SCHOOL", "BASIC", "EASY", "MEDIUM", "HARD"]
  const CategoryNames: seq<string> := ["School", "Basic", "Easy", "Medium", "Hard"]
  const ActivityNotFound := "Activity tab content not found"
  const FailurePrefix := "Failed to fetch problem list: "

  function Upper(c: char): char {
    if 'a' <= c <= 'z' then (c as int - 32) as char else c
  }

  function Lower(c: char): char {
    if 'A' <= c <= 'Z' then (c as int + 32) as char else c
  }

  function LowerAll(s: string): (r: string)
    ensures |r| == |s| && forall i :: 0 <= i < |s| ==> r[i] == Lower(s[i])
  {
    if s == [] then [] else [Lower(s[0])] + LowerAll(s[1..])
  }

  /** Python's `str.capitalize` on ASCII text: the first letter upper case, the rest lower case. */
  function Capitalize(s: string): (r: string)
    ensures |r| == |s|
  {
    if s == [] then [] else [Upper(s[0])] + LowerAll(s[1..])
  }

  /** `capitalize` upper-cases the first character and lower-cases every other one. */
  lemma CapitalizeCases(s: string)
    requires s != []
    ensures Capitalize(s)[0] == Upper(s[0])
    ensures forall i :: 1 <= i < |s| ==> Capitalize(s)[i] == Lower(s[i])
  {
    var r := Capitalize(s);
    assert r == [Upper(s[0])] + LowerAll(s[1..]);
    forall i | 1 <= i < |s|
      ensures r[i] == Lower(s[i])
    {
      assert r[i] == LowerAll(s[1..])[i - 1];
      assert s[1..][i - 1] == s[i];
    }
  }

  /** The dict keys are the capitalised difficulty names. */
  lemma CapitalizedNames()
    ensures forall k :: 0 <= k < 5 ==> Capitalize(Difficulties[k]) == CategoryNames[k]
  {
    forall k | 0 <= k < 5
      ensures Capitalize(Difficulties[k]) == CategoryNames[k]
    {
      if k == 0 {
        CapitalizedSchool();
      } else if k == 1 {
        CapitalizedBasic();
      } else if k == 2 {
        CapitalizedEasy();
      } else if k == 3 {
        CapitalizedMedium();
      } else {
        CapitalizedHard();
      }
    }
  }

  lemma CapitalizedSchool() ensures Capitalize("SCHOOL") == "School" {}
  lemma CapitalizedBasic() ensures Capitalize("BASIC") == "Basic" {}
  lemma CapitalizedEasy() ensures Capitalize("EASY") == "Easy" {}
  lemma CapitalizedMedium() ensures Capitalize("MEDIUM") == "Medium" {}
  lemma CapitalizedHard() ensures Capitalize("HARD") == "Hard" {}

  /** The count of a tab: the first parenthesised number of its text, 0 without tab or number. */
  function TabCount(tabText: Option<string>): nat {
    match tabText
    case None => 0
    case Some(t) =>
      match FirstParenNumber(t)
      case None => 0
      case Some(d) => DigitsValue(d)
  }

  /** A tab with a non-zero count is clicked, and the click raised. */
  predicate ClickFails(v: CategoryView) {
    TabCount(v.tabText) > 0 && v.clickError.Some?
  }

  /** The list recorded for a tab whose click did not raise. */
  function CategoryList(v: CategoryView): seq<Problem> {
    if TabCount(v.tabText) == 0 then [] else v.loaded.GetOr([])
  }

  /** The state of the loop: the two dicts so far, or the error that ended it. */
  datatype Progress =
    | Collecting(totals: seq<(string, nat)>, lists: seq<(string, seq<Problem>)>)
    | Aborted(message: string)

  /** The loop state after the first `n` difficulties. */
  function Collect(views: seq<CategoryView>, n: nat): Progress
    requires n <= |views| && n <= |Difficulties|
  {
    if n == 0 then Collecting([], [])
    else
      match Collect(views, n - 1)
      case Aborted(m) => Aborted(m)
      case Collecting(totals, lists) =>
        var v := views[n - 1];
        var key := Capitalize(Difficulties[n - 1]);
        var count := TabCount(v.tabText);
        if count == 0 then Collecting(totals + [(key, 0)], lists + [(key, [])])
        else if v.clickError.Some? then Aborted(v.clickError.value)
        else Collecting(totals + [(key, count)], lists + [(key, v.loaded.GetOr([]))])
  }

  /** What `fetch_problem_list` returns for a page. */
  function ProblemList(username: string, page: ProblemPage): (r: ProblemListResult)
    ensures r.userName == username
  {
    match page
    case ListRaised(m) => ProblemListError(FailurePrefix + m, username)
    case ListLoaded(hasNavbar, views) =>
      if !hasNavbar then ProblemListError(ActivityNotFound, username)
      else
        match Collect(views, 5)
        case Aborted(m) => ProblemListError(FailurePrefix + m, username)
        case Collecting(totals, lists) => ProblemListRecord(username, totals, lists)
  }

  /** `fetch_problem_list`: the loop over the five difficulties. */
  method FetchProblemList(username: string, page: ProblemPage) returns (r: ProblemListResult)
    ensures r == ProblemList(username, page)
  {
    if page.ListRaised? {
      return ProblemListError(FailurePrefix + page.message, username);
    }
    if !page.hasNavbar {
      return ProblemListError(ActivityNotFound, username);
    }
    var views := page.views;
    var totals: seq<(string, nat)> := [];
    var lists: seq<(string, seq<Problem>)> := [];
    for i := 0 to 5
      invariant Collect(views, i) == Collecting(totals, lists)
    {
      var key := Capitalize(Difficulties[i]);
      var count := 0;
      if views[i].tabText.Some? {
        var found := FirstParenNumber(views[i].tabText.value);
        if found.Some? {
          count := DigitsValue(found.value);
        }
      }
      totals := totals + [(key, count)];
      if count == 0 {
        lists := lists + [(key, [])];
        continue;
      }
      if views[i].clickError.Some? {
        AbortedStays(views, i + 1, 5);
        return ProblemListError(FailurePrefix + views[i].clickError.value, username);
      }
      match views[i].loaded
      case Some(problems) =>
        lists := lists + [(key, problems)];
      case None =>
        lists := lists + [(key, [])];
    }
    r := ProblemListRecord(username, totals, lists);
  }

  // -----------------------------------------------------------------------
  // Properties of the loop
  // -----------------------------------------------------------------------

  /**
   * While the loop runs, each difficulty handled so far has one entry in
   * each dict, in order, keyed by its capitalised name: the tab's count, and
   * its list (empty for a zero count or a list that did not load).
   */
  lemma {:induction false} CollectEntries(views: seq<CategoryView>, n: nat)
    requires n <= |views| && n <= |Difficulties|
    requires Collect(views, n).Collecting?
    ensures var p := Collect(views, n);
      |p.totals| == n && |p.lists| == n
      && (forall k :: 0 <= k < n ==>
            p.totals[k] == (Capitalize(Difficulties[k]), TabCount(views[k].tabText)))
      && (forall k :: 0 <= k < n ==>
            p.lists[k] == (Capitalize(Difficulties[k]), CategoryList(views[k])))
  {
    if n > 0 {
      CollectEntries(views, n - 1);
      var p := Collect(views, n - 1);
      var q := Collect(views, n);
      var v := views[n - 1];
      var key := Capitalize(Difficulties[n - 1]);
      assert p.Collecting?;
      assert q.totals == p.totals + [(key, TabCount(v.tabText))];
      assert q.lists == p.lists + [(key, CategoryList(v))];
      forall k | 0 <= k < n
        ensures q.totals[k] == (Capitalize(Difficulties[k]), TabCount(views[k].tabText))
        ensures q.lists[k] == (Capitalize(Difficulties[k]), CategoryList(views[k]))
      {
        if k < n - 1 {
          assert q.totals[k] == p.totals[k];
          assert q.lists[k] == p.lists[k];
        }
      }
    }
  }

  /** Tab `k` is the first whose click fails. */
  predicate FirstClickFailure(views: seq<CategoryView>, k: nat)
    requires k < |views|
  {
    ClickFails(views[k]) && forall j :: 0 <= j < k ==> !ClickFails(views[j])
  }

  /**
   * The loop ends with an error exactly when some tab with a non-zero count
   * fails its click; the error is that of the first such tab.
   */
  lemma {:induction false} CollectAborts(views: seq<CategoryView>, n: nat)
    requires n <= |views| && n <= |Difficulties|
    ensures Collect(views, n).Aborted? <==> exists k :: 0 <= k < n && ClickFails(views[k])
    ensures Collect(views, n).Aborted? ==>
      exists k :: 0 <= k < n && FirstClickFailure(views, k)
        && Collect(views, n).message == views[k].clickError.value
  {
    if n > 0 {
      CollectAborts(views, n - 1);
      var v := views[n - 1];
      var p := Collect(views, n - 1);
      if p.Aborted? {
        assert Collect(views, n) == p;
        var k :| 0 <= k < n - 1 && FirstClickFailure(views, k) && p.message == views[k].clickError.value;
        assert 0 <= k < n && ClickFails(views[k]);
      } else {
        assert forall j :: 0 <= j < n - 1 ==> !ClickFails(views[j]);
        if ClickFails(v) {
          assert Collect(views, n) == Aborted(v.clickError.value);
          assert FirstClickFailure(views, n - 1);
        } else {
          assert Collect(views, n).Collecting?;
          assert forall j :: 0 <= j < n ==> !ClickFails(views[j]) by {
            forall j | 0 <= j < n
              ensures !ClickFails(views[j])
            {
              if j == n - 1 {
                assert views[j] == v;
              }
            }
          }
        }
      }
    }
  }

  /** Once the loop has ended with an error, later difficulties do not change it. */
  lemma {:induction false} AbortedStays(views: seq<CategoryView>, n: nat, m: nat)
    requires n <= m <= |views| && m <= |Difficulties|
    requires Collect(views, n).Aborted?
    ensures Collect(views, m) == Collect(views, n)
    decreases m - n
  {
    if n < m {
      AbortedStays(views, n + 1, m);
    }
  }

  /**
   * A record holds every difficulty, in the fixed order, under its
   * capitalised name in both dicts: the tab's count, and its list.
   */
  lemma RecordEntries(username: string, page: ProblemPage)
    requires ProblemList(username, page).ProblemListRecord?
    ensures page.ListLoaded? && page.hasNavbar
    ensures var r := ProblemList(username, page);
      && r.userName == username
      && |r.problemsByDifficulty| == 5 && |r.problems| == 5
      && (forall k :: 0 <= k < 5 ==>
            r.problemsByDifficulty[k] == (CategoryNames[k], TabCount(page.views[k].tabText)))
      && (forall k :: 0 <= k < 5 ==>
            r.problems[k] == (CategoryNames[k], CategoryList(page.views[k])))
  {
    CollectEntries(page.views, 5);
    CapitalizedNames();
  }

  /** The error records: a raised call, no navbar, or a failed click (reported with the first one's error). */
  lemma ErrorCases(username: string, page: ProblemPage)
    ensures var r := ProblemList(username, page);
      r.ProblemListError? <==>
        (page.ListRaised? || !page.hasNavbar || exists k :: 0 <= k < 5 && ClickFails(page.views[k]))
    ensures var r := ProblemList(username, page);
      r.ProblemListError? ==> r.userName == username
    ensures page.ListLoaded? && !page.hasNavbar ==>
      ProblemList(username, page) == ProblemListError(ActivityNotFound, username)
  {
    if page.ListLoaded? {
      CollectAborts(page.views, 5);
    }
  }

  /**
   * A tab whose count is 0 is never clicked: what its click and its list
   * would have done makes no difference to the result.
   */
  lemma {:induction false} ZeroCountNotClicked(views: seq<CategoryView>, k: nat, n: nat, click: Option<string>, loaded: Option<seq<Problem>>)
    requires k < |views| && n <= |views| && n <= |Difficulties|
    requires TabCount(views[k].tabText) == 0
    ensures Collect(views[k := views[k].(clickError := click, loaded := loaded)], n) == Collect(views, n)
  {
    if n > 0 {
      ZeroCountNotClicked(views, k, n - 1, click, loaded);
    }
  }

  /**
   * A tab whose list fails to load gets an empty list; every other entry of
   * the record, and the record itself, stay as they were.
   */
  lemma FailedLoadOnlyEmptiesItsList(username: string, hasNavbar: bool, views: FiveViews, k: nat)
    requires k < 5
    requires ProblemList(username, ListLoaded(hasNavbar, views)).ProblemListRecord?
    ensures var failed: FiveViews := views[k := views[k].(loaded := None)];
      var r := ProblemList(username, ListLoaded(hasNavbar, views));
      |r.problems| == 5
      && ProblemList(username, ListLoaded(hasNavbar, failed))
        == ProblemListRecord(username, r.problemsByDifficulty, r.problems[k := (CategoryNames[k], [])])
  {
    var failed: FiveViews := views[k := views[k].(loaded := None)];
    var page := ListLoaded(hasNavbar, views);
    var page' := ListLoaded(hasNavbar, failed);
    FailedLoadSameClicks(views, k);
    assert ProblemList(username, page').ProblemListRecord? by {
      CollectAborts(views, 5);
      CollectAborts(failed, 5);
    }
    RecordEntries(username, page);
    RecordEntries(username, page');
    var r := ProblemList(username, page);
    var r' := ProblemList(username, page');
    assert r'.problemsByDifficulty == r.problemsByDifficulty;
    assert r'.problems == r.problems[k := (CategoryNames[k], [])];
  }

  /** Only the list of the failed tab changes; counts and clicks stay. */
  lemma FailedLoadSameClicks(views: FiveViews, k: nat)
    requires k < 5
    ensures var failed := views[k := views[k].(loaded := None)];
      && (forall j :: 0 <= j < 5 ==> ClickFails(failed[j]) == ClickFails(views[j]))
      && (forall j :: 0 <= j < 5 ==> TabCount(failed[j].tabText) == TabCount(views[j].tabText))
      && (forall j :: 0 <= j < 5 && j != k ==> CategoryList(failed[j]) == CategoryList(views[j]))
      && CategoryList(failed[k]) == []
  {
  }

  /** The count of a tab rendered as its name and a parenthesised number is that number. */
  lemma TabCountOfRenderedTab(name: string, n: nat)
    requires NoOpenParen(name)
    ensures TabCount(Some(name + " " + "(" + Str(n) + ")")) == n
  {
    var pre := name + " ";
    assert NoOpenParen(pre);
    FindParenNumbersAfter(pre, Str(n), "");
    assert pre + "(" + Str(n) + ")" + "" == name + " " + "(" + Str(n) + ")";
  }
}
