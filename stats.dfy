/**
 * `get_gfg_data` of scraper.py with the browser calls taken out: the text of
 * the difficulty navbar is the input, the per-difficulty counts and their
 * total are the output.
 */
module Stats {
  import opened PyText

  /**
   * What the activity page showed: a Playwright call that raised (including
   * a navbar whose `text_content()` is None, on which `re.findall` raises),
   * or the navbar text, None where the page has no navbar.
   */
  datatype StatsPage =
    | StatsRaised(message: string)
    | StatsLoaded(navbar: Option<string>)

  /** The result dict: the five counts, the user name and the total, or an error record. */
  datatype StatsResult =
    | StatsRecord(school: nat, basic: nat, easy: nat, medium: nat, hard: nat,
                  userName: string, totalProblemsSolved: int)
    | StatsError(error: string, userName: string)

  const StatsNotFound := "Stats not found"
  const IncompleteStats := "Incomplete stats"

  /** A value of the `stats` dict: the five counts are ints, the user name a string. */
  datatype PyValue = PyInt(i: int) | PyStr(s: string)

  /** `isinstance(v, (int, str)) and str(v).isdigit()`. */
  predicate Summed(v: PyValue) {
    match v
    case PyInt(i) => IsDigitString(Str(i))
    case PyStr(s) => IsDigitString(s)
  }

  /** `int(v) if isinstance(v, str) else v` on a summed value. */
  function SummedValue(v: PyValue): int {
    match v
    case PyInt(i) => i
    case PyStr(s) => DigitsValue(s)
  }

  /** The `sum(...)` over the dict values, in insertion order. */
  function SumDigitValues(vs: seq<PyValue>): int
    decreases |vs|
  {
    if vs == [] then 0
    else (if Summed(vs[0]) then SummedValue(vs[0]) else 0) + SumDigitValues(vs[1..])
  }

  /** What `get_gfg_data` returns for a page. */
  function GfgData(username: string, page: StatsPage): (r: StatsResult)
    ensures r.userName == username
  {
    match page
    case StatsRaised(m) => StatsError(m, username)
    case StatsLoaded(navbar) =>
      if navbar.None? then StatsError(StatsNotFound, username)
      else
        var numbers := FindParenNumbers(navbar.value);
        if |numbers| >= 5 then
          var school, basic, easy := DigitsValue(numbers[0]), DigitsValue(numbers[1]), DigitsValue(numbers[2]);
          var medium, hard := DigitsValue(numbers[3]), DigitsValue(numbers[4]);
          var values := [PyInt(school), PyInt(basic), PyInt(easy), PyInt(medium), PyInt(hard), PyStr(username)];
          StatsRecord(school, basic, easy, medium, hard, username, SumDigitValues(values))
        else StatsError(IncompleteStats, username)
  }

  /**
   * `int(username)` when the user name is made of digits only, else 0: the
   * share of the user name in the total.
   */
  function UserNameShare(username: string): nat {
    if IsDigitString(username) then DigitsValue(username) else 0
  }

  /** The sum over five counts and a user name. */
  lemma {:induction false} SumOfCountsAndName(a: nat, b: nat, c: nat, d: nat, e: nat, username: string)
    ensures SumDigitValues([PyInt(a), PyInt(b), PyInt(c), PyInt(d), PyInt(e), PyStr(username)])
      == a + b + c + d + e + UserNameShare(username)
  {
    var vs := [PyInt(a), PyInt(b), PyInt(c), PyInt(d), PyInt(e), PyStr(username)];
    StrIsDigitIff(a);
    StrIsDigitIff(b);
    StrIsDigitIff(c);
    StrIsDigitIff(d);
    StrIsDigitIff(e);
    assert SumDigitValues(vs[5..]) == UserNameShare(username) by {
      assert vs[5..][1..] == [];
    }
    assert SumDigitValues(vs[4..]) == e + SumDigitValues(vs[5..]) by { assert vs[4..][1..] == vs[5..]; }
    assert SumDigitValues(vs[3..]) == d + SumDigitValues(vs[4..]) by { assert vs[3..][1..] == vs[4..]; }
    assert SumDigitValues(vs[2..]) == c + SumDigitValues(vs[3..]) by { assert vs[2..][1..] == vs[3..]; }
    assert SumDigitValues(vs[1..]) == b + SumDigitValues(vs[2..]) by { assert vs[1..][1..] == vs[2..]; }
    assert SumDigitValues(vs) == a + SumDigitValues(vs[1..]);
  }

  /**
   * The total is the sum of the five counts plus the user name's own value
   * when it is all digits, because the user name is already in the dict when
   * the sum is taken.
   */
  lemma TotalCountsUserName(username: string, page: StatsPage)
    requires GfgData(username, page).StatsRecord?
    ensures var r := GfgData(username, page);
      r.totalProblemsSolved == r.school + r.basic + r.easy + r.medium + r.hard + UserNameShare(username)
  {
    var r := GfgData(username, page);
    SumOfCountsAndName(r.school, r.basic, r.easy, r.medium, r.hard, username);
  }

  /** The error records: no navbar, fewer than five numbers, or a raised call. */
  lemma StatsErrors(username: string, page: StatsPage)
    ensures var r := GfgData(username, page);
      r.StatsError? <==>
        (page.StatsRaised? || page.navbar.None? || |FindParenNumbers(page.navbar.value)| < 5)
    ensures var r := GfgData(username, page);
      r.StatsError? ==>
        (r.userName == username
         && r.error == (if page.StatsRaised? then page.message
                        else if page.navbar.None? then StatsNotFound
                        else IncompleteStats))
  {
  }

  /** The first five numbers found, in order, are the School to Hard counts; later ones are ignored. */
  lemma FirstFiveNumbers(username: string, page: StatsPage)
    requires GfgData(username, page).StatsRecord?
    ensures page.StatsLoaded? && page.navbar.Some?
    ensures var numbers := FindParenNumbers(page.navbar.value);
      var r := GfgData(username, page);
      |numbers| >= 5
      && r.userName == username
      && [r.school, r.basic, r.easy, r.medium, r.hard]
         == [DigitsValue(numbers[0]), DigitsValue(numbers[1]), DigitsValue(numbers[2]),
             DigitsValue(numbers[3]), DigitsValue(numbers[4])]
  {
  }

  /**
   * A navbar as the activity page renders it: each tab name, a space, and its
   * count in parentheses (`SCHOOL (0)BASIC (3)...`).
   */
  function Tabs(names: seq<string>, counts: seq<nat>): string
    requires |names| == |counts|
    decreases |names|
  {
    if names == [] then ""
    else names[0] + " " + "(" + Str(counts[0]) + ")" + Tabs(names[1..], counts[1..])
  }

  /** The numbers found in rendered tabs are the counts, in order, as decimal strings. */
  lemma {:induction false} TabsNumbers(names: seq<string>, counts: seq<nat>)
    requires |names| == |counts|
    requires forall k :: 0 <= k < |names| ==> NoOpenParen(names[k])
    ensures |FindParenNumbers(Tabs(names, counts))| == |counts|
    ensures forall i :: 0 <= i < |counts| ==> FindParenNumbers(Tabs(names, counts))[i] == Str(counts[i])
    decreases |names|
  {
    if names == [] {
      FindParenNumbersNoParen("");
    } else {
      var pre := names[0] + " ";
      assert NoOpenParen(names[0]);
      assert NoOpenParen(pre);
      var rest := Tabs(names[1..], counts[1..]);
      assert Tabs(names, counts) == pre + "(" + Str(counts[0]) + ")" + rest;
      FindParenNumbersAfter(pre, Str(counts[0]), rest);
      var found := FindParenNumbers(Tabs(names, counts));
      assert found == [Str(counts[0])] + FindParenNumbers(rest);
      TabsNumbers(names[1..], counts[1..]);
      forall i | 0 <= i < |counts|
        ensures found[i] == Str(counts[i])
      {
        if i > 0 {
          assert found[i] == FindParenNumbers(rest)[i - 1];
          assert counts[1..][i - 1] == counts[i];
        }
      }
    }
  }

  /**
   * The counts shown in a navbar of the rendered form are read back in order:
   * the first five become School to Hard, later ones are ignored.
   */
  lemma NavbarRoundTrip(username: string, names: seq<string>, counts: seq<nat>)
    requires |names| == |counts| >= 5
    requires forall k :: 0 <= k < |names| ==> NoOpenParen(names[k])
    ensures GfgData(username, StatsLoaded(Some(Tabs(names, counts))))
      == StatsRecord(counts[0], counts[1], counts[2], counts[3], counts[4], username,
                     counts[0] + counts[1] + counts[2] + counts[3] + counts[4] + UserNameShare(username))
  {
    TabsNumbers(names, counts);
    var page := StatsLoaded(Some(Tabs(names, counts)));
    TotalCountsUserName(username, page);
  }
}
