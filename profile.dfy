/**
 * `fetch_user_profile` of scraper.py with the browser calls taken out: what
 * the page showed is the input, the record (or error record) is the output.
 *
 * The page is read as: the final URL, what the name and designation lookups
 * returned, and the (label, value) texts of every score card and of every
 * problem-of-the-day item, in page order. A Playwright call that raises
 * anywhere inside the `try` block is the input `ProfileRaised`.
 */
module Profile {
  import opened PyText

  /** The texts read from one card: each is None where `text_content()` returned None. */
  datatype TextPair = TextPair(labelText: Option<string>, valueText: Option<string>)

  datatype ProfilePage =
    | ProfileRaised(message: string)
    | ProfileLoaded(url: string, name: Option<string>, designation: Option<string>,
                    cards: seq<TextPair>, potdItems: seq<TextPair>)

  /** The `data` dict built for a profile. */
  datatype Profile = Profile(
    userName: string,
    fullName: string,
    designation: Option<string>,
    codingScore: int,
    problemsSolved: int,
    instituteRank: int,
    articlesPublished: int,
    potdStreak: int,
    longestStreak: int,
    potdsSolved: int)

  /** The result dict: the profile, or `{"error": ..., "userName": ...}`. */
  datatype ProfileResult =
    | ProfileRecord(profile: Profile)
    | ProfileError(error: string, userName: string)

  const NotFoundMessage := "User not found or profile private"

  /** The numeric fields of the record. */
  datatype Field =
    | CodingScore | ProblemsSolved | InstituteRank | ArticlesPublished
    | PotdStreak | LongestStreak | PotdsSolved

  /** The two loops of `fetch_user_profile`. */
  datatype Kind = ScoreCards | PotdItems

  /** An assignment `data[field] = value` made by one loop iteration. */
  datatype Entry = Entry(field: Field, value: int)

  function Read(p: Profile, f: Field): int {
    match f
    case CodingScore => p.codingScore
    case ProblemsSolved => p.problemsSolved
    case InstituteRank => p.instituteRank
    case ArticlesPublished => p.articlesPublished
    case PotdStreak => p.potdStreak
    case LongestStreak => p.longestStreak
    case PotdsSolved => p.potdsSolved
  }

  function Assign(p: Profile, e: Entry): (q: Profile)
    ensures Read(q, e.field) == e.value
    ensures forall f :: f != e.field ==> Read(q, f) == Read(p, f)
    ensures q.userName == p.userName && q.fullName == p.fullName && q.designation == p.designation
  {
    match e.field
    case CodingScore => p.(codingScore := e.value)
    case ProblemsSolved => p.(problemsSolved := e.value)
    case InstituteRank => p.(instituteRank := e.value)
    case ArticlesPublished => p.(articlesPublished := e.value)
    case PotdStreak => p.(potdStreak := e.value)
    case LongestStreak => p.(longestStreak := e.value)
    case PotdsSolved => p.(potdsSolved := e.value)
  }

  /** Which field a score-card label selects: the first of four substrings it contains. */
  function ScoreCardField(caption: string): Option<Field> {
    if Contains(caption, "Coding Score") then Some(CodingScore)
    else if Contains(caption, "Problems Solved") then Some(ProblemsSolved)
    else if Contains(caption, "Institute Rank") then Some(InstituteRank)
    else if Contains(caption, "Articles Published") then Some(ArticlesPublished)
    else None
  }

  /** Which field a problem-of-the-day label selects. */
  function PotdItemField(caption: string): Option<Field> {
    if Contains(caption, "Longest Streak") then Some(LongestStreak)
    else if Contains(caption, "POTDs Solved") then Some(PotdsSolved)
    else None
  }

  /** A label that selects a field is not empty. */
  lemma SelectingLabelNotEmpty(caption: string)
    ensures ScoreCardField(caption).Some? ==> caption != ""
    ensures PotdItemField(caption).Some? ==> caption != ""
  {
    if Contains(caption, "Coding Score") { ContainsIsLonger(caption, "Coding Score"); }
    if Contains(caption, "Problems Solved") { ContainsIsLonger(caption, "Problems Solved"); }
    if Contains(caption, "Institute Rank") { ContainsIsLonger(caption, "Institute Rank"); }
    if Contains(caption, "Articles Published") { ContainsIsLonger(caption, "Articles Published"); }
    if Contains(caption, "Longest Streak") { ContainsIsLonger(caption, "Longest Streak"); }
    if Contains(caption, "POTDs Solved") { ContainsIsLonger(caption, "POTDs Solved"); }
  }

  /** A text that Python treats as false: None or the empty string. */
  predicate Falsy(t: Option<string>) {
    t.None? || t.value == ""
  }

  /** The entry a selected field and a parsed number make; nothing unless both are there. */
  function Select(f: Option<Field>, n: Option<int>): Option<Entry> {
    if f.Some? && n.Some? then Some(Entry(f.value, n.value)) else None
  }

  /** The number of a stripped score-card value: `__` is skipped, anything else goes through `int`. */
  function CardNumber(v: string): Option<int> {
    if v == "__" then None else ParseInt(v)
  }

  /**
   * One score card: skipped when either text is falsy or the stripped value
   * is `__`; the whole stripped value goes through `int`, and a failed parse
   * or an unknown label changes nothing.
   */
  function ScoreCardEntry(card: TextPair): Option<Entry> {
    if Falsy(card.labelText) || Falsy(card.valueText) then None
    else Select(ScoreCardField(card.labelText.value), CardNumber(Strip(card.valueText.value)))
  }

  /** The number of a problem-of-the-day value: its first whitespace-separated token through `int`. */
  function ItemNumber(v: string): Option<int> {
    match FirstToken(v)
    case None => None
    case Some(t) => ParseInt(t)
  }

  /**
   * One problem-of-the-day item: skipped when either text is falsy; only the
   * first whitespace-separated token of the value goes through `int`.
   */
  function PotdItemEntry(item: TextPair): Option<Entry> {
    if Falsy(item.labelText) || Falsy(item.valueText) then None
    else Select(PotdItemField(item.labelText.value), ItemNumber(item.valueText.value))
  }

  function EntryOf(kind: Kind, pair: TextPair): Option<Entry> {
    match kind
    case ScoreCards => ScoreCardEntry(pair)
    case PotdItems => PotdItemEntry(pair)
  }

  /** The fields a loop of the given kind can write. */
  predicate Writable(kind: Kind, f: Field) {
    match kind
    case ScoreCards => f in {CodingScore, ProblemsSolved, InstituteRank, ArticlesPublished}
    case PotdItems => f in {LongestStreak, PotdsSolved}
  }

  lemma EntryFieldWritable(kind: Kind, pair: TextPair)
    ensures EntryOf(kind, pair).Some? ==> Writable(kind, EntryOf(kind, pair).value.field)
  {
    if EntryOf(kind, pair).Some? {
      var f := if kind == ScoreCards then ScoreCardField(pair.labelText.value)
               else PotdItemField(pair.labelText.value);
      assert EntryOf(kind, pair).value.field == f.value;
      FieldsWritable(pair.labelText.value);
    }
  }

  /** The labels select only the fields of their own loop. */
  lemma FieldsWritable(caption: string)
    ensures ScoreCardField(caption).Some? ==> Writable(ScoreCards, ScoreCardField(caption).value)
    ensures PotdItemField(caption).Some? ==> Writable(PotdItems, PotdItemField(caption).value)
  {
  }

  predicate Targets(kind: Kind, pair: TextPair, f: Field) {
    EntryOf(kind, pair).Some? && EntryOf(kind, pair).value.field == f
  }

  /**
   * The record after one of the loops has run over `pairs`. A loop writes
   * only the fields of its kind; name, designation and user name stay.
   */
  function ApplyPairs(p: Profile, kind: Kind, pairs: seq<TextPair>): (r: Profile)
    ensures forall f :: !Writable(kind, f) ==> Read(r, f) == Read(p, f)
    ensures r.userName == p.userName && r.fullName == p.fullName && r.designation == p.designation
    decreases |pairs|
  {
    if pairs == [] then p
    else
      var q := ApplyPairs(p, kind, pairs[..|pairs| - 1]);
      var last := pairs[|pairs| - 1];
      EntryFieldWritable(kind, last);
      match EntryOf(kind, last)
      case None => q
      case Some(e) => Assign(q, e)
  }

  /** One more pair: its entry, if any, is assigned to the record so far. */
  lemma ApplyPairsStep(p: Profile, kind: Kind, pairs: seq<TextPair>, i: nat)
    requires i < |pairs|
    ensures var q := ApplyPairs(p, kind, pairs[..i]);
      ApplyPairs(p, kind, pairs[..i + 1])
        == if EntryOf(kind, pairs[i]).Some? then Assign(q, EntryOf(kind, pairs[i]).value) else q
  {
    assert pairs[..i + 1][..i] == pairs[..i];
  }

  /** The record before the loops: defaults, with the name falling back to the user name. */
  function Defaults(username: string, name: Option<string>, designation: Option<string>): Profile {
    Profile(username, if Falsy(name) then username else name.value, designation, 0, 0, 0, 0, 0, 0, 0)
  }

  /** What `fetch_user_profile` returns for a page. */
  function UserProfile(username: string, page: ProfilePage): (r: ProfileResult)
    ensures r.ProfileError? ==> r.userName == username
    ensures r.ProfileRecord? ==> r.profile.userName == username
  {
    match page
    case ProfileRaised(m) => ProfileError(m, username)
    case ProfileLoaded(url, name, designation, cards, potdItems) =>
      if Contains(url, "auth") then ProfileError(NotFoundMessage, username)
      else
        var scored := ApplyPairs(Defaults(username, name, designation), ScoreCards, cards);
        ProfileRecord(ApplyPairs(scored, PotdItems, potdItems))
  }

  /** `fetch_user_profile`, filling the record in the two loops over cards and items. */
  method FetchUserProfile(username: string, page: ProfilePage) returns (r: ProfileResult)
    ensures r == UserProfile(username, page)
  {
    if page.ProfileRaised? {
      return ProfileError(page.message, username);
    }
    if Contains(page.url, "auth") {
      return ProfileError(NotFoundMessage, username);
    }
    var data := Defaults(username, page.name, page.designation);
    ghost var base := data;
    var i := 0;
    while i < |page.cards|
      invariant 0 <= i <= |page.cards|
      invariant data == ApplyPairs(base, ScoreCards, page.cards[..i])
    {
      ApplyPairsStep(base, ScoreCards, page.cards, i);
      var e := ScoreCardEntry(page.cards[i]);
      if e.Some? {
        data := Assign(data, e.value);
      }
      i := i + 1;
    }
    assert page.cards[..i] == page.cards;
    ghost var scored := data;
    var j := 0;
    while j < |page.potdItems|
      invariant 0 <= j <= |page.potdItems|
      invariant data == ApplyPairs(scored, PotdItems, page.potdItems[..j])
    {
      ApplyPairsStep(scored, PotdItems, page.potdItems, j);
      var e := PotdItemEntry(page.potdItems[j]);
      if e.Some? {
        data := Assign(data, e.value);
      }
      j := j + 1;
    }
    assert page.potdItems[..j] == page.potdItems;
    r := ProfileRecord(data);
  }

  // -----------------------------------------------------------------------
  // The loops: which card wins
  // -----------------------------------------------------------------------

  /**
   * A field keeps its earlier value when no pair selects it: a missing or
   * empty text, `__`, an unparseable number or an unknown label leaves the
   * record as it was.
   */
  lemma {:induction false} UntargetedFieldKept(p: Profile, kind: Kind, pairs: seq<TextPair>, f: Field)
    requires forall j :: 0 <= j < |pairs| ==> !Targets(kind, pairs[j], f)
    ensures Read(ApplyPairs(p, kind, pairs), f) == Read(p, f)
    decreases |pairs|
  {
    if pairs != [] {
      UntargetedFieldKept(p, kind, pairs[..|pairs| - 1], f);
    }
  }

  /** A later pair overwrites an earlier one: a field holds the value of the last pair selecting it. */
  lemma {:induction false} LastPairWins(p: Profile, kind: Kind, pairs: seq<TextPair>, f: Field, i: nat)
    requires i < |pairs| && Targets(kind, pairs[i], f)
    requires forall j :: i < j < |pairs| ==> !Targets(kind, pairs[j], f)
    ensures Read(ApplyPairs(p, kind, pairs), f) == EntryOf(kind, pairs[i]).value.value
    decreases |pairs|
  {
    var n := |pairs| - 1;
    var prefix := pairs[..n];
    ReadAfterLastPair(p, kind, pairs, f);
    if i == n {
      assert Targets(kind, pairs[n], f);
    } else {
      assert !Targets(kind, pairs[n], f);
      assert Read(ApplyPairs(p, kind, pairs), f) == Read(ApplyPairs(p, kind, prefix), f);
      assert prefix[i] == pairs[i];
      forall j | i < j < n
        ensures !Targets(kind, prefix[j], f)
      {
        assert prefix[j] == pairs[j];
      }
      LastPairWins(p, kind, prefix, f, i);
    }
  }

  /** Helper: a field after the last pair is that pair's value if it targets the field, and unchanged otherwise. */
  lemma ReadAfterLastPair(p: Profile, kind: Kind, pairs: seq<TextPair>, f: Field)
    requires pairs != []
    ensures Read(ApplyPairs(p, kind, pairs), f)
      == if Targets(kind, pairs[|pairs| - 1], f) then EntryOf(kind, pairs[|pairs| - 1]).value.value
         else Read(ApplyPairs(p, kind, pairs[..|pairs| - 1]), f)
  {
  }

  // -----------------------------------------------------------------------
  // The record
  // -----------------------------------------------------------------------

  /** An error record always carries the user name; it arises exactly from a raised call or a login redirect. */
  lemma ProfileErrorCases(username: string, page: ProfilePage)
    ensures var r := UserProfile(username, page);
      r.ProfileError? <==> (page.ProfileRaised? || Contains(page.url, "auth"))
    ensures var r := UserProfile(username, page);
      r.ProfileError? ==>
        (r.userName == username && r.error == (if page.ProfileRaised? then page.message else NotFoundMessage))
  {
  }

  /** A final URL containing `auth` yields exactly the two-key not-found record. */
  lemma AuthRedirectNotFound(username: string, page: ProfilePage)
    requires page.ProfileLoaded? && Contains(page.url, "auth")
    ensures UserProfile(username, page) == ProfileError(NotFoundMessage, username)
  {
  }

  /** Helper: unfolds a record into the defaults run through the score-card loop, then the item loop. */
  lemma RecordShape(username: string, page: ProfilePage)
    requires UserProfile(username, page).ProfileRecord?
    ensures page.ProfileLoaded? && !Contains(page.url, "auth")
    ensures UserProfile(username, page).profile
      == ApplyPairs(ApplyPairs(Defaults(username, page.name, page.designation), ScoreCards, page.cards),
                    PotdItems, page.potdItems)
  {
  }

  /**
   * The identity fields of a record: the user name, the full name falling
   * back to the user name when the name text is None or empty, and the
   * designation as read; the streak counter is never written and stays 0.
   */
  lemma ProfileIdentity(username: string, page: ProfilePage)
    requires UserProfile(username, page).ProfileRecord?
    ensures var p := UserProfile(username, page).profile;
      && p.userName == username
      && p.fullName == (if Falsy(page.name) then username else page.name.value)
      && p.designation == page.designation
      && p.potdStreak == 0
  {
    RecordShape(username, page);
    RunKeepsIdentity(Defaults(username, page.name, page.designation), page.cards, page.potdItems);
  }

  /** Both loops keep the identity fields, and neither writes the streak counter. */
  lemma RunKeepsIdentity(base: Profile, cards: seq<TextPair>, items: seq<TextPair>)
    ensures var p := ApplyPairs(ApplyPairs(base, ScoreCards, cards), PotdItems, items);
      && p.userName == base.userName
      && p.fullName == base.fullName
      && p.designation == base.designation
      && p.potdStreak == base.potdStreak
  {
    var scored := ApplyPairs(base, ScoreCards, cards);
    assert Read(scored, PotdStreak) == Read(base, PotdStreak);
    assert Read(ApplyPairs(scored, PotdItems, items), PotdStreak) == Read(scored, PotdStreak);
  }

  /** The pairs of the page read by the loop of the given kind. */
  function PairsOf(page: ProfilePage, kind: Kind): seq<TextPair>
    requires page.ProfileLoaded?
  {
    match kind
    case ScoreCards => page.cards
    case PotdItems => page.potdItems
  }

  /** A numeric field of the record is 0 unless some pair of its loop selects it. */
  lemma {:induction false} ProfileFieldDefault(username: string, page: ProfilePage, kind: Kind, f: Field)
    requires UserProfile(username, page).ProfileRecord? && Writable(kind, f)
    requires forall j :: 0 <= j < |PairsOf(page, kind)| ==> !Targets(kind, PairsOf(page, kind)[j], f)
    ensures Read(UserProfile(username, page).profile, f) == 0
  {
    RecordShape(username, page);
    var base := Defaults(username, page.name, page.designation);
    var scored := ApplyPairs(base, ScoreCards, page.cards);
    if kind == ScoreCards {
      assert PairsOf(page, kind) == page.cards;
      UntargetedFieldKept(base, kind, page.cards, f);
      ItemsKeepScoreField(scored, page.potdItems, f);
    } else {
      assert !Writable(ScoreCards, f);
      assert Read(scored, f) == Read(base, f);
      assert PairsOf(page, kind) == page.potdItems;
      UntargetedFieldKept(scored, kind, page.potdItems, f);
    }
  }

  /** The item loop leaves the score-card fields alone. */
  lemma ItemsKeepScoreField(scored: Profile, items: seq<TextPair>, f: Field)
    requires Writable(ScoreCards, f)
    ensures Read(ApplyPairs(scored, PotdItems, items), f) == Read(scored, f)
  {
    assert !Writable(PotdItems, f);
  }

  /** A numeric field of the record holds the value of the last pair of its loop that selects it. */
  lemma {:induction false} ProfileFieldFromLastPair(username: string, page: ProfilePage, kind: Kind, f: Field, i: nat)
    requires UserProfile(username, page).ProfileRecord? && Writable(kind, f)
    requires i < |PairsOf(page, kind)| && Targets(kind, PairsOf(page, kind)[i], f)
    requires forall j :: i < j < |PairsOf(page, kind)| ==> !Targets(kind, PairsOf(page, kind)[j], f)
    ensures Read(UserProfile(username, page).profile, f) == EntryOf(kind, PairsOf(page, kind)[i]).value.value
  {
    RecordShape(username, page);
    var base := Defaults(username, page.name, page.designation);
    var scored := ApplyPairs(base, ScoreCards, page.cards);
    if kind == ScoreCards {
      assert PairsOf(page, kind) == page.cards;
      LastPairWins(base, kind, page.cards, f, i);
      ItemsKeepScoreField(scored, page.potdItems, f);
    } else {
      assert PairsOf(page, kind) == page.potdItems;
      LastPairWins(scored, kind, page.potdItems, f, i);
    }
  }

  // -----------------------------------------------------------------------
  // Single pairs
  // -----------------------------------------------------------------------

  /** A padded integer value under a known score-card label is read in full. */
  lemma ScoreCardReadsValue(caption: string, n: int, pre: string, post: string)
    requires ScoreCardField(caption).Some?
    requires forall i :: 0 <= i < |pre| ==> IsSpace(pre[i])
    requires forall i :: 0 <= i < |post| ==> IsSpace(post[i])
    ensures ScoreCardEntry(TextPair(Some(caption), Some(pre + Str(n) + post)))
      == Some(Entry(ScoreCardField(caption).value, n))
  {
    SelectingLabelNotEmpty(caption);
    StripPadded(n, pre, post);
    assert CardNumber(Str(n)) == Some(n) by {
      StrLastIsDigit(n);
      ParseIntStr(n);
    }
  }

  /** Stripping the padding around a decimal gives the decimal back. */
  lemma StripPadded(n: int, pre: string, post: string)
    requires forall i :: 0 <= i < |pre| ==> IsSpace(pre[i])
    requires forall i :: 0 <= i < |post| ==> IsSpace(post[i])
    ensures pre + Str(n) + post != ""
    ensures Strip(pre + Str(n) + post) == Str(n)
  {
    StrHasNoOuterSpace(n);
    var v := pre + Str(n) + post;
    assert v == pre + (Str(n) + post);
    assert (Str(n) + post)[0] == Str(n)[0];
    StripLeftSkips(pre, Str(n) + post);
    StripRightSkips(Str(n), post);
  }

  lemma StrLastIsDigit(n: int)
    ensures Str(n) != [] && IsDigit(Str(n)[|Str(n)| - 1])
  {
    var d := DecimalString(if n < 0 then -n else n);
    assert IsDigit(d[|d| - 1]);
    if n < 0 {
      assert Str(n)[|Str(n)| - 1] == d[|d| - 1];
    }
  }

  /**
   * Only the first token of a problem-of-the-day value is read, whatever
   * whitespace surrounds it: `"120 / 500"` gives 120.
   */
  lemma PotdReadsFirstToken(caption: string, n: int, pre: string, rest: string)
    requires PotdItemField(caption).Some?
    requires forall i :: 0 <= i < |pre| ==> IsSpace(pre[i])
    requires rest != [] ==> IsSpace(rest[0])
    ensures PotdItemEntry(TextPair(Some(caption), Some(pre + Str(n) + rest)))
      == Some(Entry(PotdItemField(caption).value, n))
  {
    SelectingLabelNotEmpty(caption);
    assert ItemNumber(pre + Str(n) + rest) == Some(n) by {
      StrHasNoSpace(n);
      FirstTokenOfWord(pre, Str(n), rest);
      ParseIntStr(n);
    }
  }

  lemma StrHasNoSpace(n: int)
    ensures Str(n) != [] && forall i :: 0 <= i < |Str(n)| ==> !IsSpace(Str(n)[i])
  {
    var d := DecimalString(if n < 0 then -n else n);
    assert forall i :: 0 <= i < |d| ==> IsDigit(d[i]);
    if n < 0 {
      assert forall i :: 1 <= i < |Str(n)| ==> Str(n)[i] == d[i - 1];
    }
  }
}
