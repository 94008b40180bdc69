# statsy paging and embed formatting, in Dafny

A Dafny model of three parts of the statsy chat bot:

- the reaction-driven **paginator** (`ext/paginator.py`). It shows a list of embeds one page at a
  time in one host message. The invoking user flips pages by reacting with the bound symbols:
  first, previous, stop, next and last. The wiki variant adds a jump to a fixed page.
- the **Brawl Stars embed builders** (`ext/embeds/brawlstars.py`). These cover the two duration
  texts and the trophy-rank lookup. They also cover the paging of brawlers (6 a page), of the
  leaderboards (12 a page) and of the Robo Rumble and Boss Fight boards (5 and 10 a page), the
  club's top-three lists, and the club stats block.
- the **utility helpers** the builders use (`ext/utils.py`). These are the emoji lookup `e()`
  with its name normalisation, `cdir`, `lower`, and the early return of `camel_case`.

Files:

| file | module | contents |
|---|---|---|
| `wrappers.dfy` | `Wrappers` | `Option` and `Result` |
| `arith.dfy` | `Arith` | Euclidean division facts used by the paging and the time splits |
| `text.dfy` | `Text` | the Python string operations the code relies on: `str()` of an int, ASCII `lower`, `replace`, `join`, `split` |
| `embeds.dfy` | `Embeds` | embeds as plain records; the fixed-size paging `Chunks` and the pages built from it |
| `utils.dfy` | `Utils` | `e()` as `E`/`EmojiFor`, `cdir`, `camel_case`'s early return |
| `paginator.dfy` | `Paginator` | the session as a class with the page index, the running flag, the action table and an effect log |
| `brawlstars.dfy` | `Brawlstars` | the builders |

How the model is set up:

- **The paginator is a class.** Its methods update `page`, `running`, the action table
  (`emojis`, plus `emojiOrder`, the table's insertion order) and `deleted`.
- **Platform calls are logged, not performed.** Sending, editing, deleting, reacting and spawning
  a task each append an `Effect` to the non-ghost field `log`.
- **Platform answers are inputs.** What the platform answers (`Ok`, `NotFound`, `Forbidden`) is a
  parameter of the method that makes the call.
- **Escaped exceptions are results.** An exception that escapes an asynchronous task is that
  task's `TaskResult`.
- **The emoji table is a map.** It is an `EmojiTable` from emoji name to the text the emoji
  renders as, passed in wherever `e()` is called.
- **The clock is an input.** The elapsed seconds since a leaderboard update are a parameter.
- **Imperative source code stays imperative.** The paging loops of `format_brawlers` and
  `format_top_*`, the footer loop of `__init__`, and the loops of `start`, `_wait_for_reaction`
  and `e()` are methods with loops. `format_timestamp` and the `fmt` builder of `format_robo` and
  `format_boss` are straight-line code that updates its variables step by step, and are methods
  without loops. Each method is proved equal to a specification function, and the properties
  are lemmas about those functions.

Error handling as the code has it:

- **`start` stops at the first failed attachment.** `ext/paginator.py:75-80` has no `try` around
  `add_reaction`. So the first attachment the platform refuses raises out of `start`, and the
  remaining symbols get no reaction.
- **The filter lets every event through once the session has stopped.** `_reaction_check`
  returns true when the session is not running (`ext/paginator.py:106-107`). The wait loop then
  ends without acting on the event.
- **Only the edit's NotFound is caught.** The stop handler's delete and acknowledgement have no
  `try` (`ext/paginator.py:146-149`), and the edit catches only `discord.NotFound`
  (`ext/paginator.py:126-129`). A failed delete, a failed acknowledgement and an edit answered
  with Forbidden therefore raise out of the action's task. Failures to remove a reaction or to
  clear the reactions are caught and ignored (`ext/paginator.py:84-87`, `131-134`).
- **An unbound symbol raises.** It raises KeyError (`ext/paginator.py:121`). The jump target is
  not range-checked: an index past the pages raises IndexError at the edit, even after the stop
  handler has deleted the message, and a negative one counts from the end (`PyIndex`).

## Model

| member | source | states |
|---|---|---|
| Paginator.DecorateFooters | ext/paginator.py:44-51 | with edit_footer and more than one page, footer i becomes "Page i+1 of n", then " \| " and the chosen text when that is non-empty; the chosen text is footer_text if given, else the page's own; the icon is kept; otherwise every page is unchanged |
| Paginator.PageFootersDiffer | ext/paginator.py:44-51 | two different pages of one session never get the same footer text |
| Paginator.ThreePageFooters | ext/paginator.py:44-51 | with footer_text "Statsy", three pages are labelled "Page 1 of 3 \| Statsy" to "Page 3 of 3 \| Statsy" whatever their own footer text, and keep their icon |
| Paginator.EmptyFooterGetsBareLabel | ext/paginator.py:46-51 | without footer_text, an empty footer becomes just "Page i of n" |
| Paginator.PyIndex | ext/paginator.py:127 | Python list indexing: a page comes back exactly for indices from -n to n - 1, and it is the page at the index taken modulo n, so a negative index counts from the end; any other index is IndexError |
| Paginator.Step | ext/paginator.py:136-166 | the arrows move the index by at most one page, first and last land on a page, stop keeps the index, and the jump (lines 165-166) goes to brawler_power unchecked |
| Paginator.StepStaysInRange | ext/paginator.py:136-155 | the five built-in handlers keep the index a valid page; the jump does when its target is a page |
| Paginator.PreviousClamps | ext/paginator.py:136-139 | previous moves back exactly one page, and does nothing on the first page |
| Paginator.NextClamps | ext/paginator.py:141-144 | next moves on exactly one page, and does nothing on the last page |
| Paginator.JumpIsUnchecked | ext/paginator.py:165-166 | the jump sets the index to brawler_power whatever the page count, so a target past the pages cannot be shown |
| Paginator.NavigateStaysInRange | ext/paginator.py:136-155 | any run of built-in actions keeps the index in range: there is no wrap-around |
| Paginator.FirstThenLast | ext/paginator.py:151-155 | first then last ends on the last page from any index |
| Paginator.QualifiedSymbolIsBound | ext/paginator.py:104-112 | a qualifying event's symbol is in the action table, so the lookup at line 121 cannot fail for it |
| Paginator.WaitSpawnsOnlyQualified | ext/paginator.py:89-102 | every action task the wait loop spawns is for a bound symbol on the host message |
| Paginator.TimeoutStopsOnce | ext/paginator.py:89-102 | the loop stops exactly when a timeout arrives; the stop's clearing of the reactions is then its last effect and happens once; without a timeout it never clears |
| Paginator.Paginator.constructor | ext/paginator.py:37-64 | a non-empty page list gives the decorated pages, index 0, not running, the five default bindings in declaration order, no host message and an empty log |
| Paginator.NewPaginator | ext/paginator.py:37-64 | construction fails, with the source's message and no session, exactly when there are no pages; otherwise as the constructor |
| Paginator.Paginator.InstallJump | ext/paginator.py:158-163 | the jump binding is added to the table (and to the attachment order when new) exactly when brawler_power is non-zero |
| Paginator.NewWikiPaginator | ext/paginator.py:158-163 | the wiki session: empty pages fail with the base class's message; otherwise the base session (decorated pages, the invoking user, page 0, not running, no host message, empty log) with brawler_power stored, plus the jump binding when brawler_power is non-zero |
| Paginator.Paginator.Start | ext/paginator.py:66-80 | page 0 is sent first; a refused send raises and changes nothing else; with one page nothing else happens and the session stays stopped; otherwise the session runs, the wait loop is spawned and the reactions are attached in table order up to and including the first refused one, whose error is the result |
| Paginator.Paginator.AttachReactions | ext/paginator.py:75-80 | one AddReaction per bound symbol in order, a custom emoji `<:name:id>` attached as `name:id`, stopping after the first refusal and raising its error |
| Paginator.Paginator.Stop | ext/paginator.py:82-87 | the session is stopped; clearing the reactions is attempted when there is a host message, and its failures are ignored; without one the call raises AttributeError |
| Paginator.Paginator.StopTwice | ext/paginator.py:82-87 | stopping twice leaves the session stopped with the same result; only the clearing is repeated |
| Paginator.Paginator.WaitForReaction | ext/paginator.py:89-102 | the loop over the delivered events makes exactly the effects WaitEffects lists and stops exactly when WaitEffects reports a timeout; a stopped session does nothing |
| Paginator.Paginator.ReactionAction | ext/paginator.py:117-155 | a stopped session ignores the reaction; an unbound symbol raises KeyError with no effect; every handler moves the index as Step says; the stop handler deletes, acknowledges and then finds the message gone, which stops the session, except that an index outside the pages raises IndexError first and leaves the session running; a navigation shows the new page, stops the session on NotFound, raises on Forbidden and IndexError; the reaction is removed after a handled edit |
| Paginator.Paginator.ShowPage | ext/paginator.py:126-134 | the edit shows the page at the index; NotFound (always, once the message is deleted) stops the session; Forbidden raises; otherwise the user's reaction is removed |
| Paginator.ThreePageSession | ext/paginator.py:66-155 | a three-page session with footer_text "Statsy", started, moved next and stopped, shows the page with footer "Page 2 of 3 \| Statsy", ends on page 1 and stopped, and a later reaction is ignored |
| Brawlstars.FormatTimestamp | ext/embeds/brawlstars.py:18-35 | the step-by-step updates and appends give TimeLeft(SixtySplit(seconds)): each positive part in the order d, h, m, s, the later ones after a space, with 60 hours to the "day" |
| Brawlstars.SixtySplitDecomposes | ext/embeds/brawlstars.py:19-24 | for seconds >= 0 the split reassembles the input with hours, minutes and seconds below 60 |
| Brawlstars.NonPositiveTimestampIsEmpty | ext/embeds/brawlstars.py:25-35 | an input of zero or less gives the empty text |
| Brawlstars.OneDayAsWritten | ext/embeds/brawlstars.py:23-24 | as written, 86400 seconds print as " 24h" |
| Brawlstars.DaySplitDecomposes | ext/embeds/brawlstars.py:23-24 | with 24 hours to the day the split reassembles the input with hours below 24 |
| Brawlstars.OneDayInDays | ext/embeds/brawlstars.py:23-24 | with 24 hours to the day, 86400 seconds print as "1d" |
| Brawlstars.LastUpdated | ext/embeds/brawlstars.py:316-327 | the conditional prepending gives ElapsedText(ElapsedSplit(elapsed)) |
| Brawlstars.ElapsedText | ext/embeds/brawlstars.py:320-327 | the text has at least two characters and ends in 's'; with no days, hours or minutes it is exactly "{s}s" |
| Brawlstars.ElapsedTextParts | ext/embeds/brawlstars.py:320-327 | the text ends in "{s}s" and starts with the part of the largest non-zero unit: "{d}d ", else "{h}h ", else "{m}m " |
| Brawlstars.ElapsedSplitDecomposes | ext/embeds/brawlstars.py:316-318 | the divmod chain reassembles the elapsed seconds for every input, negative ones included, with hours below 24 and minutes and seconds below 60 |
| Brawlstars.OneDayElapsed | ext/embeds/brawlstars.py:316-327 | one day since the update prints as "1d 0s" |
| Brawlstars.Reached | ext/embeds/brawlstars.py:116 | the comprehension keeps exactly the thresholds the trophies reach |
| Brawlstars.IndexOf | ext/embeds/brawlstars.py:116 | `list.index`: the first position of the value, or ValueError when absent |
| Brawlstars.ReachedIsPrefix | ext/embeds/brawlstars.py:87-116 | in an increasing table the reached thresholds are the prefix below the first one above the trophies |
| Brawlstars.RankInIsCount | ext/embeds/brawlstars.py:116 | on an increasing table the rank expression is the number of thresholds reached, and IndexError (None) when none is |
| Brawlstars.RankOf | ext/embeds/brawlstars.py:87-116 | the rank expression raises exactly for negative highest trophies |
| Brawlstars.RankIsLargestThreshold | ext/embeds/brawlstars.py:87-116 | for trophies >= 0 the rank is between 1 and 20 and names the largest threshold not above the trophies |
| Brawlstars.RankIsCount | ext/embeds/brawlstars.py:116 | for trophies >= 0 the rank is the number of thresholds reached |
| Brawlstars.RankMonotone | ext/embeds/brawlstars.py:87-116 | more trophies never give a lower rank |
| Brawlstars.FormatBrawlers | ext/embeds/brawlstars.py:110-123 | it raises (None) exactly when some brawler's highest trophies are negative; otherwise the pages are the brawler fields cut into pages of 6 under copies of the profile header |
| Brawlstars.BrawlerStep | ext/embeds/brawlstars.py:110-121 | one turn of the loop keeps the pages equal to the paged fields of the brawlers so far |
| Brawlstars.BrawlerPlacement | ext/embeds/brawlstars.py:110-121 | there are ceil(n / 6) pages and brawler k is on page k / 6 at position k % 6 |
| Brawlstars.TwelvePerPage | ext/embeds/brawlstars.py:190-218 | the counter loop gives the fields cut into pages of 12 under copies of the header; an empty list gives the bare header |
| Brawlstars.FormatTopPlayers | ext/embeds/brawlstars.py:179-219 | it raises (None) exactly on an empty list; otherwise the players' fields in pages of 12 |
| Brawlstars.FormatTopClubs | ext/embeds/brawlstars.py:222-256 | it raises (None) exactly on an empty list; otherwise the clubs' fields in pages of 12 |
| Brawlstars.TopPagesShape | ext/embeds/brawlstars.py:191-218 | n >= 1 fields take ceil(n / 12) pages of 1 to 12 fields, which read in order give the fields back |
| Brawlstars.TwentyFivePlayers | ext/embeds/brawlstars.py:191-218 | 25 players take pages of 12, 12 and 1 |
| Brawlstars.WindowPages | ext/embeds/brawlstars.py:331-346 | as written there are ceil(n / size) pages, page rnd holding entries rnd to rnd + size - 1, or IndexError |
| Brawlstars.TenTeamsOverlap | ext/embeds/brawlstars.py:339-344 | as written, ten teams give pages of teams 0-4 and 1-5 |
| Brawlstars.ShortBoardRaises | ext/embeds/brawlstars.py:339-340 | as written, a non-empty board shorter than one page raises IndexError |
| Brawlstars.FormatRobo | ext/embeds/brawlstars.py:314-348 | the header carries the team count and the "last updated" text; the team fields are cut into consecutive pages of 5 |
| Brawlstars.FormatBoss | ext/embeds/brawlstars.py:351-383 | the header carries the count, the "last updated" text and the map; the fields are cut into consecutive pages of 10 |
| Brawlstars.RoboTeamPlacement | ext/embeds/brawlstars.py:331-346 | ceil(n / 5) pages; team k is on page k / 5 at position k % 5 as its field (the "{m}m {s}s" duration over one emoji-and-player line for each of its three members), and each team is shown once |
| Brawlstars.BossPlayerPlacement | ext/embeds/brawlstars.py:368-381 | ceil(n / 10) pages; player k is on page k / 10 at position k % 10 as its field (duration, the brawler's emoji and the player), and each player is shown once |
| Brawlstars.InsertByExp | ext/embeds/brawlstars.py:127 | inserting adds exactly the one member |
| Brawlstars.SortByExp | ext/embeds/brawlstars.py:127 | the sort is a permutation of the members |
| Brawlstars.SortByExpDescending | ext/embeds/brawlstars.py:127 | the sorted members are in descending level order |
| Brawlstars.TopThreeAreMostExperienced | ext/embeds/brawlstars.py:127-148 | none of the members after the first three of the sorted list has a higher level than those three |
| Brawlstars.TopLists | ext/embeds/brawlstars.py:127-148 | both lists are empty with fewer than 3 members; otherwise they hold the first three members and the first three of the level-sorted members |
| Brawlstars.ClubInfoPage | ext/embeds/brawlstars.py:150-170 | the first page keeps the club description and has the five stat fields |
| Brawlstars.TopListsPage | ext/embeds/brawlstars.py:154-175 | the second page has the fixed description and no fields exactly when the club has fewer than 3 members; otherwise it has both top-list fields |
| Brawlstars.TopListTexts | ext/embeds/brawlstars.py:164-174 | each joined top list is empty exactly when the club has fewer than 3 members, which is what the `if v` filter tests |
| Brawlstars.FormatClubStats | ext/embeds/brawlstars.py:403-410 | the block is the three lines joined by newlines |
| Brawlstars.ClubStatsLinesHaveNoNewline | ext/embeds/brawlstars.py:403-410 | no stats line holds a newline when no emoji text does |
| Brawlstars.ClubStatsSplit | ext/embeds/brawlstars.py:403-410 | splitting the block on newlines gives its three lines back |
| Embeds.ChunksShape | ext/embeds/brawlstars.py:110-121 | paging n entries by size gives ceil(n / size) pages of 1 to size entries that read in order give the entries back |
| Embeds.ChunksIndex | ext/embeds/brawlstars.py:110-121 | entry k is on page k / size at position k % size |
| Embeds.ChunksSnoc | ext/embeds/brawlstars.py:110-112 | one more entry opens a new page exactly when the entries so far fill whole pages, else extends the last |
| Embeds.PagedFieldPlacement | ext/embeds/brawlstars.py:110-121 | for paged embeds: page count, order, and the page and position of field k |
| Embeds.PagesAddField | ext/embeds/brawlstars.py:110-121 | adding a field opens a new page copied from the header when the fields so far fill whole pages, and adds it to the last page |
| Utils.E | ext/utils.py:93-112 | the loop over the rewrites computes the normalised name; the result is the table's emoji for it when there is one, else the name itself |
| Utils.NormalisedIsLower | ext/utils.py:97-98 | with should_format the looked-up name holds no capital letter |
| Utils.NormalisedHasNoSeparator | ext/utils.py:99-109 | with should_format the looked-up name holds none of '.', ' ', '_', '-' |
| Utils.ChestGoldenIsChestGold | ext/utils.py:96-109 | "Chest Golden" is looked up as "chestgold" |
| Utils.UnformattedNameIsStr | ext/utils.py:96-112 | without should_format the name is only passed through str(), and a name with no emoji comes back as it was looked up |
| Utils.EmojiForKeepsOut | ext/utils.py:96-112 | a character that is not a small letter and is in neither the name nor any emoji text is not in e()'s result |
| Utils.Cdir | ext/utils.py:115-116 | exactly the names not starting with '_' are kept |
| Utils.CdirAppend | ext/utils.py:115-116 | the kept names stay in their order |
| Text.Lower | ext/utils.py:119-120 | lowering keeps the length, maps each ASCII capital to the small letter 32 code points on, leaves no ASCII capital and changes nothing else |
| Text.LowerIdempotent | ext/utils.py:119-120 | lowering twice is lowering once |
| Text.NatStrRoundTrip | ext/paginator.py:46 | the decimal digits of a page number read back as the number |
| Text.IntStrDigits | ext/embeds/brawlstars.py:120 | str() of an int is its digits, after '-' exactly when it is negative, and they read back as its magnitude |
| Text.ReplaceRemovesChar | ext/utils.py:105-107 | replacing a character by "" removes all of its occurrences |
| Text.SplitJoin | ext/embeds/brawlstars.py:404-410 | splitting a join on its separator gives the pieces back when none holds the separator |

## Left out

- **Concurrency.** The asynchronous machinery is not modelled: `create_task`, `wait_for` with its
  timeout, and `asyncio.sleep(0.05)`. The effects are applied in the order the events are given,
  and a spawned action is a logged effect that does not run by itself.
- Paginator.Paginator.WaitForReaction: does not model an action task stopping the session while
  the loop waits. That would need the interleaving above.
- **`exec_before_edit`.** The hook looked up by `getattr` with `_blank` as default
  (`ext/paginator.py:124`) is not modelled. Neither class in the modelled files defines it.
- **`dest` and `timeout`.** The `dest` option is not modelled: the send is one effect. The
  timeout is stored but never used to measure time.
- **camel_case's regex split and `str.title`.** Their Unicode-aware semantics are out of scope.
- Utils.CamelCase: returns `SplitAndTitled` in place of the split, title-cased text; it is a classifier helper with no row of its own.
- Text.Lower and Utils.NormalisedIsLower: ASCII only. Python's `str.lower` also maps non-ASCII capitals ('É' to 'é', and 'İ' to two characters, which changes the length); the model leaves every non-ASCII character as it is.
- **Platform records.** `discord.utils.get`, `box.Box` and the JSON conversion of the records are
  not modelled. Game data comes in as plain datatypes, and the emoji table as a map.
- **Embed details.** Colour (`random_color`), thumbnails, images, author icons and URLs are not
  modelled. An embed keeps its title, author name, description, fields and footer. Field
  `inline` flags are not modelled either.
- **Translation.** `Translator` is not modelled. The texts are the English source strings.
- **The clock.** `datetime.utcnow`/`strptime` are not modelled. The elapsed whole seconds are a
  parameter.
- **Other builders.** `format_profile`, `format_events`, `get_image` and
  `format_random_brawler_and_send` are not part of this model. Neither is `cogs/fortnite.py`,
  with its HTTP calls, database and metrics.
- **`get_stack_variable`.** The way `e()` finds `ctx` on the call stack is not modelled. The
  table is passed in.
- Brawlstars.SortByExp: stated as a descending permutation. The stability of Python's sort is
  not stated, though `InsertByExp` keeps members of equal level in their order.
- Brawlstars.FormatClub: has no contract of its own. It returns `[ClubInfoPage, TopListsPage]`,
  and those two carry the contracts.
- Brawlstars.FormatRobo and Brawlstars.FormatBoss: model the corrected paging (see Findings).
  The code as written is `WindowPages`.
- **Integer overflow.** It is not modelled: Python integers are unbounded, as Dafny's are.
- Brawlstars.FormatTimestamp: uses exact integer division where the code computes
  `math.floor(seconds / 60)` and the like on floats (`ext/embeds/brawlstars.py:19-23`). The
  float's precision loss at very large inputs and the OverflowError past the float range are
  not modelled.
- Paginator.PageFootersDiffer and Paginator.DecorateFooters: pages are values. The code
  decorates the caller's embed objects in place (`ext/paginator.py:45-51`), so one object passed
  twice is decorated twice and both pages show its last footer. The lemma holds for pages that
  are distinct objects.
- Paginator.DecorateFooters: `ext/paginator.py:47` assigns to `text` on the embed's footer
  attribute, whose behaviour belongs to the discord library, which is not part of this model.
  The model follows the evident intent: the new text replaces the footer's text and the icon is
  kept.
- **Record field helpers.** `BrawlerFields`, `PlayerFields`, `ClubFields`, `RoboFields`,
  `BossFields` and `Qualifies` are helpers whose properties are stated by the rows that use them
  (`FormatBrawlers`, `TwelvePerPage`, `RoboTeamPlacement`, `BossPlayerPlacement`,
  `QualifiedSymbolIsBound`, `WaitSpawnsOnlyQualified`).

## Findings

| source | as written | input that shows it | evidently intended | confidence | as-written member | corrected member |
|---|---|---|---|---|---|---|
| ext/embeds/brawlstars.py:23-24 | days are counted as 60 hours (`hours / 60`) | 86400 seconds prints " 24h" | 24 hours to the day, so "1d" | not executed | Brawlstars.FormatTimestamp, Brawlstars.OneDayAsWritten | Brawlstars.FormatTimestampInDays, Brawlstars.DaySplitDecomposes, Brawlstars.OneDayInDays |
| ext/embeds/brawlstars.py:339, 376 | page `rnd` shows entries `rnd` to `rnd + size - 1` | 10 teams show teams 0-4 and then 1-5, and teams 6-9 never appear; 1 to 4 teams raise IndexError | page `rnd` shows entries `rnd * size` onwards, the last page possibly shorter | not executed | Brawlstars.WindowPages, Brawlstars.TenTeamsOverlap, Brawlstars.ShortBoardRaises | Brawlstars.FormatRobo, Brawlstars.FormatBoss, Brawlstars.RoboTeamPlacement, Brawlstars.BossPlayerPlacement |
