# GeeksforGeeks profile scraper: a verified model of its core

The scraper serves three kinds of data about a GeeksforGeeks user: a profile summary, problem counts per difficulty, and the solved problems of each difficulty. It gets them by driving a headless Firefox through Playwright. One Firefox instance is shared by every request and is replaced after 100 requests. This project models, in Dafny, the two parts of `scraper.py` that hold logic:

- **The shared-browser lifecycle** (`lifecycle.dfy`). The module globals `_PLAYWRIGHT`, `_BROWSER` and `_REQUEST_COUNT` become the fields of a `Supervisor` class. `get_browser` and `close_browser` become its methods. Each method is proved to follow a pure step function over a `Globals` value (`GetBrowserStep`, `CloseBrowserStep`). The lemmas about the counter, the recycle rule and shutdown are stated on those step functions. Starting Playwright, launching Firefox, and closing or stopping a handle are calls into code that is not modelled. Their outcomes are inputs: the handle returned, or the fact that the call raised. A ghost event log records every close and stop request, and every start and launch that returned a handle.
- **Text-to-record extraction in the three fetchers** (`profile.dfy`, `stats.dfy`, `problems.dfy`). What the page showed is the input: the final URL, the texts read from the DOM, and which Playwright calls raised. The dict each fetcher returns is the output. The loops that fill the dicts are methods with loop invariants, proved equal to recursive specification functions. The lemmas then state the extraction rules in terms of those functions.
- **Python built-ins** (`pytext.dfy`). `str.isspace`, `strip`, `split()[0]`, `int()`, `isdigit`, `str(int)`, the substring test `in`, and `re.findall`/`re.search` with the pattern `\((\d+)\)` are modelled as functions. Each has its own contract or round-trip lemma.

Behaviours of the code that the model pins down:

- `close_browser` never resets `_REQUEST_COUNT`. A browser launched after a shutdown therefore starts from the old count. The count can reach 101, and repeated close/get rounds raise it without bound (`CloseGetRoundsGrowCount`).
- Recycling starts a new Playwright handle and never stops the old one (`RecycleReplacesBrowser`).
- When no browser is held, `get_browser` launches one but never resets the count (`NoBrowserNoReset`).
- A `get_browser` that raises counts nothing. It raises when the recycling `close()` fails, or when `start()` or `launch()` fails (`GetBrowserRaises`).
- In `get_gfg_data` the user name is already in the dict when the total is summed. An all-digit user name is therefore added to `totalProblemsSolved` (`TotalCountsUserName`).
- A score card's whole stripped value goes through `int`. For a problem-of-the-day item, only the first whitespace-separated token does. `potdStreak` is never written.

The code has no retry loop, health check, connection invalidation or failure classification. Its recycle threshold is exactly 100, and the request counter resets only on the recycle path (scraper.py:32-35).

## Model

| member | source | states |
|---|---|---|
| `Lifecycle.GetBrowserStep` | scraper.py:27-50 | one `get_browser`: the new globals, the browser returned (None where the call raises) and the foreign calls made; its properties are the `GetBrowser...`, `Recycle...`, `Reuse...` and `NoBrowser...` lemmas below |
| `Lifecycle.CloseBrowserStep` | scraper.py:52-74 | one `close_browser`: both handles dropped, the count kept; its properties are the `Close...` lemmas below |
| `Lifecycle.Supervisor.constructor` | scraper.py:19-25 | the globals start with no Playwright handle, no browser, a request count of 0, and no foreign call made |
| `Lifecycle.Supervisor.GetBrowser` | scraper.py:27-50 | the in-place update of the three globals equals `GetBrowserStep`; the browser returned (or the raise) and the foreign calls made are those of the step |
| `Lifecycle.Supervisor.CloseBrowser` | scraper.py:52-74 | whatever `close()` and `stop()` raise, both handles end up None and the count is kept; close is called on a held browser, then stop on a held Playwright handle |
| `Lifecycle.GetBrowserCountsRequest` | scraper.py:32-49 | a call that returns leaves that browser held, with the count one above its value after the recycle reset |
| `Lifecycle.GetBrowserRaises` | scraper.py:32-48 | a call raises exactly when a foreign call it makes raises; a raising call counts nothing and leaves no browser held, except that a failed recycling close changes nothing |
| `Lifecycle.RecycleReplacesBrowser` | scraper.py:32-40 | with a browser held and the count at 100 or more, the old browser is closed, a new Playwright handle and browser are started, and the count is 1; the old Playwright handle is never stopped |
| `Lifecycle.ReuseBelowThreshold` | scraper.py:32-50 | below the threshold the held browser is returned again, the count rises by one, and no foreign call is made |
| `Lifecycle.NoBrowserNoReset` | scraper.py:37-49 | with no browser held, a new handle and browser are started, and the count rises by one from its old value however high that is |
| `Lifecycle.GetBrowserKeepsGetsOnly` | scraper.py:27-50 | one `get_browser` keeps the invariant: count at most 100, 0 with no browser held, at least 1 with one held |
| `Lifecycle.GetsKeepGetsOnly` | scraper.py:27-50 | any run of `get_browser` calls keeps that invariant |
| `Lifecycle.GetsFromStartupStayBounded` | scraper.py:24-49 | from the initial globals, with only `get_browser` calls and whatever the foreign calls do, the count stays within 0..100 |
| `Lifecycle.GetFromStartupReturnsWithinThreshold` | scraper.py:24-50 | in such a run, every call that returns does so with a count in 1..100 |
| `Lifecycle.CloseDropsHandles` | scraper.py:54-72 | after `close_browser` neither handle is held and the count is unchanged |
| `Lifecycle.CloseIdempotent` | scraper.py:57-72 | a second `close_browser` changes nothing and makes no foreign call |
| `Lifecycle.CloseWithNothingOpen` | scraper.py:57-72 | with nothing open, `close_browser` changes nothing and makes no foreign call |
| `Lifecycle.CloseThenGetPassesThreshold` | scraper.py:32-54 | closing at a count of 100 and then calling `get_browser` gives a count of 101 |
| `Lifecycle.CloseGetRoundsGrowCount` | scraper.py:27-72 | each close-then-get round raises the count by exactly one and leaves the newest browser held, so the count has no bound |
| `PyText.IsSpace` | scraper.py:129 | Python's `str.isspace` for one character: the ASCII whitespace and separators 0x1C-0x1F plus the Unicode space characters; used by `StripLeft`, `StripRight`, `Word` and their lemmas |
| `PyText.StripLeft` | scraper.py:129 | the result is a suffix of the input; every character dropped is whitespace; the result does not start with whitespace |
| `PyText.StripRight` | scraper.py:129 | the result is a prefix of the input; every character dropped is whitespace; the result does not end with whitespace |
| `PyText.Strip` | scraper.py:129 | a non-empty result neither starts nor ends with whitespace; `StripTrims` adds that it is the input with its outer whitespace removed |
| `PyText.StripTrims` | scraper.py:129 | `strip()` gives the part of the input that has only whitespace before and after it |
| `PyText.Word` | scraper.py:150 | the longest whitespace-free prefix: no whitespace in it, and whitespace or the end right after it |
| `PyText.FirstToken` | scraper.py:150 | `split()[0]` exists exactly when the text is not all whitespace, and is then a non-empty token without whitespace; `FirstTokenIsFirstWord` says which token |
| `PyText.FirstTokenIsFirstWord` | scraper.py:150 | `split()[0]` is the word right after the leading whitespace, ending at whitespace or at the end of the text |
| `PyText.FirstTokenOfWord` | scraper.py:150 | a word with only whitespace before it and whitespace (or nothing) right after it is the first token |
| `PyText.ParseInt` | scraper.py:133 | `int(s)`: surrounding `IntSpace` whitespace ignored, an optional sign, digits with single underscores between them, None where Python raises ValueError; its properties are `ParseIntStr`, `ParseIntIgnoresPadding` and `ParseIntOfStripped` |
| `PyText.IntStripLeft` | scraper.py:133 | the whitespace `int` skips before its literal (`str.isspace` without 0x1C-0x1F): the result is a suffix, everything dropped is such whitespace, and the result does not start with it |
| `PyText.IntStripRight` | scraper.py:133 | the same for the whitespace after the literal: a prefix, everything dropped is such whitespace, and the result does not end with it |
| `PyText.ParseIntOfStripped` | scraper.py:129-133 | `int(s.strip())` is decided by the stripped text alone: `int` finds nothing more to skip after `str.strip` |
| `PyText.Str` | scraper.py:184 | `str(n)`: a minus sign for negatives, then `DecimalString`; `ParseIntStr` inverts it and `StrIsDigitIff` says when it is all digits |
| `PyText.ParseIntStr` | scraper.py:133 | `int(str(n)) == n` for every integer, negative ones included |
| `PyText.ParseIntIgnoresPadding` | scraper.py:133 | `int` of a decimal padded with the whitespace it skips (`str.isspace` without 0x1C-0x1F) gives its value |
| `PyText.StrIsDigitIff` | scraper.py:184 | `str(v).isdigit()` holds exactly for the non-negative integers |
| `PyText.DecimalString` | scraper.py:184 | the decimal form of a natural is a digit string whose value is that natural, with no leading zero |
| `PyText.Contains` | scraper.py:134-137 | `sub in s` holds exactly when `sub` occurs at some position of `s` |
| `PyText.ContainsIsLonger` | scraper.py:134-137 | only a string at least as long as `sub` can contain it |
| `PyText.FindParenNumbers` | scraper.py:178 | every group found by `re.findall(r'\((\d+)\)')` is a non-empty ASCII digit string |
| `PyText.FindParenNumbersNoParen` | scraper.py:178 | text without `(` yields no match |
| `PyText.FindParenNumbersAfter` | scraper.py:178 | a `(digits)` group preceded by text without `(` is found first, and the scan goes on after its `)` |
| `PyText.FirstParenNumber` | scraper.py:235-237 | the first match of `re.search` is a digit string |
| `Profile.ScoreCardEntry` | scraper.py:127-138 | one score card: falsy texts and `__` are skipped, the whole stripped value goes through `int`, the first matching label selects the field; `ScoreCardReadsValue` and `EntryFieldWritable` state its properties |
| `Profile.PotdItemEntry` | scraper.py:148-153 | one problem-of-the-day item: falsy texts are skipped, the first token goes through `int`, the first matching label selects the field; `PotdReadsFirstToken` and `EntryFieldWritable` state its properties |
| `Profile.UserProfile` | scraper.py:89-158 | every result carries the user name; its other properties are `ProfileErrorCases`, `ProfileIdentity`, `ProfileFieldDefault` and `ProfileFieldFromLastPair` |
| `Profile.Assign` | scraper.py:134-152 | writing one numeric field of the record sets that field and leaves every other field unchanged |
| `Profile.EntryFieldWritable` | scraper.py:134-152 | a score card can only write one of its four fields, a problem-of-the-day item only `longestStreak` or `potdsSolved` |
| `Profile.SelectingLabelNotEmpty` | scraper.py:127-152 | a label that selects a field is not empty |
| `Profile.FieldsWritable` | scraper.py:134-152 | a score-card label selects only one of the four score fields, an item label only `longestStreak` or `potdsSolved` |
| `Profile.StripPadded` | scraper.py:129 | stripping whitespace padding from around a decimal gives back the decimal |
| `Profile.ApplyPairsStep` | scraper.py:122-138 | one more loop iteration assigns the pair's entry, if it has one, to the record so far |
| `Profile.RunKeepsIdentity` | scraper.py:96-153 | neither loop changes the user name, full name, designation or streak counter |
| `Profile.ItemsKeepScoreField` | scraper.py:143-153 | the item loop leaves the four score-card fields unchanged |
| `Profile.ApplyPairs` | scraper.py:122-153 | a loop writes only the fields of its kind; user name, full name and designation stay |
| `Profile.FetchUserProfile` | scraper.py:89-158 | the two loops over cards and items produce exactly the specified result: the error record, or the defaults passed through both loops |
| `Profile.UntargetedFieldKept` | scraper.py:127-138 | a field no card selects keeps its value: missing or empty texts, `__`, unparseable values and unknown labels change nothing |
| `Profile.LastPairWins` | scraper.py:122-153 | a field holds the value of the last card that selects it: a later card overwrites an earlier one |
| `Profile.ProfileErrorCases` | scraper.py:89-158 | the result is an error exactly when a call raised or the URL contains `auth`; the error record holds the user name and the message |
| `Profile.AuthRedirectNotFound` | scraper.py:93-94 | a final URL containing `auth` gives exactly the two-key record "User not found or profile private" |
| `Profile.ProfileIdentity` | scraper.py:96-116 | the record holds the user name; the full name is the name text, or the user name when that text is None or empty; the designation is the text read; `potdStreak` is 0 |
| `Profile.ProfileFieldDefault` | scraper.py:96-153 | a numeric field that no card or item selects is 0 in the record |
| `Profile.ProfileFieldFromLastPair` | scraper.py:122-153 | a numeric field holds the value of the last card or item of its loop that selects it |
| `Profile.ScoreCardReadsValue` | scraper.py:127-137 | under a known label, a whitespace-padded integer value is read in full into the field that label selects |
| `Profile.StrLastIsDigit` | scraper.py:130 | the decimal form of an integer ends in a digit, so it is never `__` |
| `Profile.StrHasNoSpace` | scraper.py:150 | the decimal form of an integer holds no whitespace |
| `Profile.PotdReadsFirstToken` | scraper.py:148-152 | under a known label, only the first token of the value is read, whatever whitespace precedes it (`"120 / 500"` gives 120) |
| `Stats.GfgData` | scraper.py:163-193 | every result carries the user name; its other properties are `StatsErrors`, `FirstFiveNumbers`, `TotalCountsUserName` and `NavbarRoundTrip` |
| `Stats.SumOfCountsAndName` | scraper.py:184 | the filtered sum over five counts and a user name is the counts' sum plus the user name's value when it is all digits |
| `Stats.TotalCountsUserName` | scraper.py:181-185 | `totalProblemsSolved` is School+Basic+Easy+Medium+Hard, plus `int(username)` for an all-digit user name |
| `Stats.StatsErrors` | scraper.py:173-190 | the result is an error exactly for a raised call, a missing navbar ("Stats not found") or fewer than five numbers ("Incomplete stats") |
| `Stats.FirstFiveNumbers` | scraper.py:178-183 | the first five numbers found, in order, are the School, Basic, Easy, Medium and Hard counts |
| `Stats.TabsNumbers` | scraper.py:178 | the numbers found in tabs rendered as `NAME (n)` are the counts, in order |
| `Stats.NavbarRoundTrip` | scraper.py:177-185 | a navbar rendered from counts is read back to exactly those counts, with their total |
| `ProblemList.LowerAll` | scraper.py:239 | lower-casing maps each character and keeps the length |
| `ProblemList.Capitalize` | scraper.py:239 | `capitalize` keeps the length |
| `ProblemList.CapitalizeCases` | scraper.py:239 | `capitalize` upper-cases the first character and lower-cases every other one |
| `ProblemList.CapitalizedNames` | scraper.py:217-239 | the keys are School, Basic, Easy, Medium and Hard |
| `ProblemList.TabCount` | scraper.py:230-237 | a tab's count: its first parenthesised number, 0 without a tab or a number; `TabCountOfRenderedTab` reads `NAME (n)` back as n |
| `ProblemList.Collect` | scraper.py:225-275 | the state of the loop after the first n difficulties; `CollectEntries`, `CollectAborts` and `AbortedStays` state its properties |
| `ProblemList.ProblemList` | scraper.py:206-284 | every result carries the user name; its other properties are `RecordEntries`, `ErrorCases`, `ZeroCountNotClicked` and `FailedLoadOnlyEmptiesItsList` |
| `ProblemList.FetchProblemList` | scraper.py:206-284 | the loop over the five difficulties produces exactly the specified result |
| `ProblemList.CollectEntries` | scraper.py:225-275 | each difficulty handled has one entry in each dict, in order: its tab count, and its list (empty for a zero count or a failed load) |
| `ProblemList.CollectAborts` | scraper.py:241-247 | the loop ends in an error exactly when a tab with a non-zero count fails its click; the error is that of the first such tab |
| `ProblemList.AbortedStays` | scraper.py:247 | once a click has failed, later difficulties do not change the outcome |
| `ProblemList.RecordEntries` | scraper.py:225-281 | a record has all five difficulties in fixed order under capitalised keys in both dicts, each with its tab count and its list |
| `ProblemList.ErrorCases` | scraper.py:215-284 | the result is an error exactly for a raised call, a missing navbar ("Activity tab content not found") or a failed click |
| `ProblemList.ZeroCountNotClicked` | scraper.py:241-244 | a tab with count 0 is not clicked: its click outcome and list make no difference |
| `ProblemList.FailedLoadOnlyEmptiesItsList` | scraper.py:252-275 | a list that fails to load empties only its own entry; the counts and every other list stay as they were |
| `ProblemList.FailedLoadSameClicks` | scraper.py:241-275 | a failed list load changes no tab count and no click outcome, and empties only that tab's list |
| `ProblemList.TabCountOfRenderedTab` | scraper.py:230-237 | the count of a tab rendered as `NAME (n)` is n |

## Left out

- Playwright itself is not modelled: starting it, launching Firefox, contexts, pages, `goto`, locators, `text_content`, `inner_text`, `click`, `wait_for_selector`, and `page.evaluate` with its JavaScript. Each such call enters the model as its outcome: a handle, a text, a list, or the fact that it raised.
- The `asyncio.Lock` and async scheduling are not modelled. The lock only makes the bodies of `get_browser` and `close_browser` mutually exclusive, so each call is one sequential step.
- Cancellation is not modelled. A `BaseException` such as `CancelledError` raised by `stop()` escapes the `except Exception` in `close_browser`.
- The timeout constants `TIMEOUT_STD` and `TIMEOUT_SHORT` are not modelled. A timeout appears only as a raised call or as a problem list that did not load.
- The `print` logging is not modelled.
- The unused `async with async_playwright()` in `fetch_problem_list` is not modelled.
- The session each fetcher opens is not modelled: the `get_browser` call, `new_context`/`new_page`, and the clean-up in `finally`. Each fetcher is modelled from the moment its page is open. An error raised during clean-up, which would replace the result, is not modelled. Nor is `fetch_problem_list` reaching its `finally` before `context` is bound, where the `context.close()` would raise.
- Exception messages (`str(e)`) are opaque strings given as input.
- A locator that matches several elements raises in Playwright's strict mode. So does a score-card locator that matches nothing. Both are folded into the "raised" input.
- PyText.ParseInt: does not model the limit of 4300 digits on integer-string conversion (Python 3.11 and later, and the matching security releases). Above it, `int` raises ValueError. So in the source a score card or item value of more than 4300 digits leaves its field unchanged, a longer navbar group makes `get_gfg_data` return its error record, and a longer tab count makes `fetch_problem_list` return its error record. The model reads the number in each case (`ScoreCardEntry`, `PotdItemEntry`, `GfgData`, `TabCount`).
- PyText.Str: does not model the same limit on `str(int)`, which raises ValueError above 4300 digits.
- PyText.ParseIntStr: holds for every integer in the model, but under that limit Python's `int(str(n))` holds only for integers of at most 4300 digits.
- Python's `int` and the regex class `\d` also accept non-ASCII decimal digits, and `str.isdigit` is also true of digits that are not decimal, such as `²` or `①`, on which `int` raises. This model accepts ASCII digits only in all three. `capitalize` is modelled on ASCII letters.
- Stats.GfgData: does not model two cases where the sum at scraper.py:184 raises, so that the source returns its error record (scraper.py:189-190) where the model returns a record without adding the user name. The first is a user name for which `isdigit` holds but which is not made of ASCII digits (`²`), since `int` raises on it. The second is an all-digit user name of more than 4300 digits, since `int(username)` exceeds the conversion limit.
- The dicts are modelled as records. For `fetch_problem_list`, they are key/value lists in insertion order. JSON serialisation is not modelled.
- svg.py is not part of this model: it is a fixed SVG template filled with `dict.get` defaults.
- main.py is not part of this model: FastAPI routes, CORS, and mapping an error key to HTTP 404.
- docs.py is not part of this model: static Swagger HTML.
