# check-footy in Dafny

`check_footy.py` reads the class listing of a booking page and looks for the
"7 a side football @ St Thomas'" sessions on it. For each one it has not
announced before, it sends a push notification through simplepush. It then
appends the session's identity to `~/.footy/games.log`, so the next run does
not announce it again.

This project models that script and proves properties of the model:

- **Sessions** (`sessions.dfy`). The `Class` constructor splits the heading on
  " @ ", refusing any heading that does not give exactly two parts. The
  session's identity (`__repr__`) is the title, followed by " on " and the
  rendered date when there is one. The filter keeps the sessions that carry
  the game title.
- **Dates** (`date_line.dfy`, `calendar.dfy`, `text.dfy`). These cover:
  - the regular expression `^(\w+) (\d+)\w\w (\w+)`, modelled with greedy
    runs of word characters;
  - the `strptime` format `'%a %d %b %Y'`;
  - the proleptic Gregorian calendar, including the weekday that `strftime`
    recomputes;
  - the day suffix (`get_day_suffix`).
- **games.log** (`lines.dfy`, `notifier.dfy`). The log is text, absent until
  the first entry is written. It is read back with Python's
  `str.splitlines()`, which cuts at all of Python's line-boundary characters.
- **The run** (`notifier.dfy`). The world the script acts on is a `World`
  object. Its fields are the log text and the ordered list of effects, each
  effect being a push sent or a chunk written to the log.
  - `World.Notify` and `World.Log` are the methods of `Class`.
  - `Web.Notify` is the loop over the games.
  - `CheckFooty` is `main`.

  Each method is proved equal to a function on the state (`NotifyStep`,
  `LogStep`, `RunSteps`). The properties of the log are lemmas about those
  functions.

Python exceptions are values of `Errors.Error`, returned as `Fail`/`Err`:

| error | Python exception |
|---|---|
| `NoHeading` | the AttributeError of a tag without `h3` |
| `TitleNotInTwo` | the ValueError of the unpacking |
| `NoDateLine` | the IndexError of `stripped_strings[3]` |
| `BadDate` | strptime's ValueError |
| `NoDate` | `date_string` on a session without a date |
| `MissingKey` | the KeyError of `get_simplepush_key` |

In two places the script behaves differently from what a reader might
expect of a date checker. The model follows the code:

- A date line with the month written in full ("Tue 3rd June") does not give
  a date. `%b` accepts only abbreviations, so strptime raises ValueError.
  `MonthNameMustBeAbbreviated` states this.
- The rendered date zero-pads the day: "Tue 03rd Jun", not "Tue 3rd Jun".
  `WeekdayRecomputed` states this.

The guarantees about the log (`NotifyAppendOnly`, `NotifyLogEntry`,
`RunAppendOnly`, `RunLogsEachIdentityOnce`, `RunPushesOncePerIdentity`,
`RunNotifiesAll`, `RunLogsAll`, `StepLinesFrom`, `RunLinesFrom`, `RunTwice`,
`CheckFootyTwice`) assume that games.log is `Clean`: missing, empty, or ending with a line
boundary. The script's own writes keep it that way, since every entry ends
with a blank line. If the file was edited so that its last line has no
boundary after it, the first entry appended is glued onto that line. The
identity on that line is then no longer a line of the log, and its session is
notified again on the next run. `UncleanLogLosesLastLine` states this.

The guarantees that a second run changes nothing (`RunTwice`,
`CheckFootyTwice`) hold for two runs in the same calendar year. The script
reads the year afresh on every run, and `strftime` recomputes the weekday
from the date. So a session still listed after New Year renders with another
weekday and gets another identity. That identity is not in games.log, so the
session is notified again. `NewYearNotifiesAgain` states this for a game
listed as "Thu 02nd Jan", logged in 2025 into a games.log that did not exist
before, and looked up in 2026.

## Model

| member | source | states |
|---|---|---|
| Sessions.NewSession | check_footy.py:30-33 | Fails with the AttributeError exactly when there is no heading. Succeeds exactly when the heading contains " @ " and no occurrence starts after the first one ends, so "a @ @ b" gives two parts. On success, sport + " @ " + location is the title, neither part contains " @ ", and the tag and title are kept |
| Sessions.NewSessionSplitsAtFirst | check_footy.py:33 | the sport of a session built from a tag ends where the first " @ " of the title starts |
| Text.SplitInTwo | check_footy.py:33 | `split(' @ ')` gives two parts exactly when the separator occurs and does not occur again after its first occurrence ends, so an overlapping heading such as "a @ @ b" gives two parts |
| Text.Split | check_footy.py:33 | `str.split` gives at least one part, and joining the parts with the separator gives the string back |
| Text.SplitFirstPart | check_footy.py:33 | when the separator occurs, the first part is the text before its first occurrence |
| Text.SplitPartsLackSeparator | check_footy.py:33 | no part of the split contains the separator |
| Text.Find | check_footy.py:33 | the index found is the first occurrence of the separator, and None means it does not occur at all |
| Sessions.AllClasses | check_footy.py:117-122 | on success one session per tag, in order, each the constructor's result for its tag; a failure is one of the constructor's errors |
| Sessions.AllClassesFirstError | check_footy.py:117-122 | a failing list fails with the error of some tag whose predecessors were all accepted: the first tag the constructor refuses |
| Sessions.FootballGames | check_footy.py:124-125 | the games are no more than the classes, and every game has the game title |
| Sessions.FootballGamesSubsequence | check_footy.py:124-125 | The games are the classes at strictly increasing positions. A position is kept precisely when its title is the game title, so every class left out has a different title |
| Sessions.SessionDate | check_footy.py:42-54 | `Class.date`: IndexError exactly when the tag has fewer than four strings, no date exactly when the fourth string lacks the date shape, a found date valid and in the given year, and otherwise strptime's ValueError |
| DateLine.MatchDateLine | check_footy.py:45-49 | a match returns a non-empty weekday word that starts the line followed by a space, a non-empty day of digits, and a non-empty month word |
| DateLine.MatchDateLineSound | check_footy.py:45-49 | A match has the regular expression's shape at the start of the line, with the groups at the places the shape gives. The day group is all digits, and the month group cannot be extended |
| DateLine.MatchDateLineExact | check_footy.py:45-49 | Wherever the shape occurs, the match returns the weekday word, the day digits and the longest run of word characters after the second space |
| DateLine.MatchDateLineIff | check_footy.py:45-48 | the match succeeds if and only if the line starts with the shape |
| DateLine.OrdinalCharsUnchecked | check_footy.py:45 | the two characters after the day are never checked: replacing them with any other word characters leaves the match unchanged |
| DateLine.Strptime | check_footy.py:50-53 | Succeeds exactly when all of these hold: the weekday group is a weekday abbreviation, the day has 1-2 digits, the month group is a month abbreviation (case ignored), the date exists and the year is at least 1000. The result is valid, in the given year, with the given day and the named month. Failure is ValueError |
| DateLine.WeekdayTokenIgnored | check_footy.py:51-53 | the weekday named in the line does not affect the date read |
| DateLine.MonthNameMustBeAbbreviated | check_footy.py:45-53 | a month word that is not three letters long, such as "June", makes the date line raise ValueError |
| DateLine.StrptimeNeedsThreeLetterMonth | check_footy.py:51-53 | `%b` refuses a month word that is not three letters long |
| DateLine.StrptimeRendered | check_footy.py:53-60 | strptime on the weekday, day and month that strftime printed gives that month and day in the given year, or ValueError when that day does not exist there or the year has fewer than four digits |
| DateLine.ParseDateLine | check_footy.py:42-54 | No date if and only if the line lacks the shape. A date is valid and in the given year. Failure is a ValueError on a line that has the shape |
| DateLine.DaySuffix | check_footy.py:62-71 | "st", "nd" or "rd" if and only if the last digit of the day is 1, 2 or 3, and "th" otherwise; the suffix is two word characters |
| DateLine.TeenDaysKeepUnitSuffix | check_footy.py:62-71 | days 11, 12 and 13 (of any hundred) get "st", "nd" and "rd" |
| DateLine.DateString | check_footy.py:56-60 | the rendered date is always 12 printable characters; its fields are stated by `DateStringFields` |
| DateLine.DateStringFields | check_footy.py:56-71 | the rendering is the weekday abbreviation of the date, a space, the day with two digits, the suffix `get_day_suffix` gives for that day, a space and the month abbreviation |
| DateLine.EleventhRendered | check_footy.py:56-71 | the rendered date keeps the naive suffix: 11 June 2025 renders as "Wed 11st Jun" |
| DateLine.WeekdayRecomputed | check_footy.py:60 | the weekday is computed from the date and the day is zero-padded: 3 June 2025 renders as "Tue 03rd Jun" |
| DateLine.DateStringReadBack | check_footy.py:42-60 | A line starting with a rendered date, not followed by a word character, parses in any year to the same month and day in that year. It fails with ValueError when that day does not exist in that year or the year has fewer than four digits. |
| DateLine.DateStringRoundTrip | check_footy.py:42-60 | for a date whose year has four digits, rendering it and parsing the line in its own year gives the date back, provided no word character follows the rendering |
| DateLine.NewYearShiftsWeekday | check_footy.py:56-60 | the rendering depends on the year: 2 January renders as "Thu 02nd Jan" in 2025 and as "Fri 02nd Jan" in 2026 |
| DateLine.NewYearReadsLine | check_footy.py:42-54 | the line "Thu 02nd Jan" reads as 2 January of whichever year the run is in, 2025 or 2026, since the weekday word is not checked |
| DateLine.DateStringDeterminesDay | check_footy.py:56-60 | two dates with the same rendering fall on the same month and day |
| Calendar.DaysInMonth | check_footy.py:53 | the month lengths strptime checks against: 28 to 31 days, with 29 exactly in February of a leap year |
| Calendar.Weekday | check_footy.py:60 | the weekday strftime prints is one of seven |
| Calendar.MonthAbbreviationFound | check_footy.py:53-60 | the month abbreviation strftime prints is read back by strptime as the same month |
| Calendar.MonthAbbreviationsDistinct | check_footy.py:53 | no two month abbreviations are equal, even ignoring case |
| Sessions.DateStringOf | check_footy.py:56-60 | The rendered date exists exactly when the session has a date. It fails with `NoDate` exactly when the date line lacks the shape. It is 12 printable characters |
| Sessions.Identity | check_footy.py:35-40 | Fails exactly when the date fails, with the same error. The title is always a prefix of the identity. The identity equals the title exactly when there is no date, and is title + " on " + rendered date otherwise |
| Sessions.IdentityHasNoBreaks | check_footy.py:35-40 | the identity of a session whose title has no line boundary has none either, so it can be a line of the log |
| Sessions.IdentityShowsDay | check_footy.py:35-71 | in the identity of a dated session, the two-digit day and its naive suffix stand right after the title, " on " and the weekday |
| Sessions.IdentityDeterminesDay | check_footy.py:35-40 | two dated sessions with the same identity have the same title, month and day |
| Sessions.NewYearNewIdentity | check_footy.py:35-60 | a session whose date line is "Thu 02nd Jan" has the identity title + " on Thu 02nd Jan" in 2025 and title + " on Fri 02nd Jan" in 2026 |
| Lines.SplitLines | check_footy.py:77 | `splitlines()` gives no lines exactly for the empty text |
| Lines.SingleLine | check_footy.py:77 | non-empty text without a line boundary is one line and does not end a line |
| Lines.LinesHaveNoBreaks | check_footy.py:77 | no line of `splitlines()` contains a line boundary |
| Lines.SplitLinesAppend | check_footy.py:96-100 | Appending text after a line boundary keeps the old lines and adds the lines of the new text. The exception is `\r` followed by `\n`, which join into one boundary |
| Lines.SplitLinesFirst | check_footy.py:77 | a line followed by `\n` splits off as the first line |
| Notifier.GetSimplepushKey | check_footy.py:135-139 | the key is the SIMPLEPUSH variable when it is set, and KeyError otherwise |
| Notifier.HasBeenNotified | check_footy.py:73-77 | False when games.log is absent, and False when it is empty and the identity computes. Otherwise it fails exactly when the identity fails, and is true if and only if the identity is a whole line of the log |
| Notifier.LogStep | check_footy.py:96-100 | Always creates games.log. On success it appends the header and then the identity with a blank line. When the identity fails, only the header has been written |
| Notifier.World.Append | check_footy.py:98-100 | `f.write` on games.log opened for appending: the file, created empty when missing, gains the chunk at its end, and the write is recorded after the earlier effects |
| Notifier.UncleanLogLosesLastLine | check_footy.py:96-100 | When games.log holds one line with no boundary after it, logging another session glues the header onto that line. The old identity is then no longer a line, so its session counts as not notified |
| Notifier.World.Log | check_footy.py:96-100 | the new log, the effects and the outcome are those of `LogStep` |
| Notifier.LogEntryLines | check_footy.py:96-100 | after text that ends a line, one log entry for an identity without a line boundary adds exactly the lines [header, identity, ""] after the old lines |
| Notifier.LoggedIdentityIsALine | check_footy.py:96-100 | whatever the old text, an identity without a line boundary that has just been logged is a line of games.log, which then ends a line |
| Notifier.NotifyStep | check_footy.py:82-94 | a call that raises has sent nothing and written nothing, and a call logs at most one identity; the error raised when the identity fails is stated by `NotifyIdentityFails` |
| Notifier.World.Send | check_footy.py:88-93 | `simplepush.send`: the push is recorded after the earlier effects, and games.log is unchanged |
| Notifier.World.Notify | check_footy.py:82-94 | the new log, the effects and the outcome are those of `NotifyStep` |
| Notifier.NotifyStepShape | check_footy.py:82-100 | A call either leaves the world exactly as it was, or does all of the following: with the session not yet logged, not on a dry run, with a key and a date, it sends one push (key, title, rendered date, "Football"), then writes the header, then the identity, and completes. The converse is `NotifyStepCompletes` |
| Notifier.NotifyStepCompletes | check_footy.py:82-94 | A call completes exactly when the session is already logged, or it has an identity and either it is a dry run or the key and the rendered date are there. It sends and logs exactly when it is not a dry run, the session is not yet logged, and the key and the rendered date are there |
| Notifier.NotifyDryRun | check_footy.py:82-87 | a dry run sends nothing and writes nothing |
| Notifier.NotifyAlreadyNotified | check_footy.py:83-85 | a session already in the log is skipped without error and without effects |
| Notifier.NotifyMissingKey | check_footy.py:87-92 | Without the key nothing is sent and nothing is written. The call raises KeyError exactly when the session is due to be sent: not a dry run, not yet logged, and with an identity |
| Notifier.NotifyIdentityFails | check_footy.py:73-86 | a session whose identity fails raises the date's error, IndexError or ValueError, whether or not games.log exists, and nothing is sent or written |
| Notifier.NotifyUndatedFails | check_footy.py:87-92 | Once a session without a date is due to be sent, the call raises before any effect. Nothing records the session, so it fails the same way on every run |
| Notifier.NotifiedAfterNotify | check_footy.py:82-100 | for a session whose title has no line boundary, after a completed call that is not a dry run, the session's identity is in the log |
| Notifier.NotifyAppendOnly | check_footy.py:82-100 | when games.log is missing or ends a line, games.log and the effects only grow, every old line stays a line, and the log still ends a line |
| Notifier.NotifyLogEntry | check_footy.py:96-100 | when games.log is missing or ends a line and a session with a single-line title is logged, the lines of games.log become the old lines followed by exactly [header, identity, ""] |
| Notifier.RunSteps | check_footy.py:127-132 | the games are notified in order, each in the state the previous one left, and the first exception ends the loop; each game logs at most one identity, and with no games nothing happens |
| Notifier.RunStopsAtFailure | check_footy.py:131-132 | once a game fails, the games after it are not notified |
| Notifier.RunStepsNext | check_footy.py:131-132 | after the games before it completed, the next game is notified in the state they left |
| Notifier.Web.constructor | check_footy.py:107-110 | the games are the classes with the game title |
| Notifier.Web.Notify | check_footy.py:127-132 | The new log, the effects and the outcome are those of `RunSteps` over the games. With no games nothing changes |
| Notifier.RunDryRun | check_footy.py:127-132 | a dry run of all the games changes nothing |
| Notifier.RunAppendOnly | check_footy.py:127-132 | when games.log is missing or ends a line, over a whole run games.log and the effects only grow; old lines stay lines, and the log still ends a line |
| Notifier.FreshlyLoggedExtend | check_footy.py:127-132 | logging a new identity after a list of freshly logged ones keeps them pairwise distinct |
| Notifier.RunEntries | check_footy.py:82-132 | the effects a run adds are, in order, one entry per identity it logs: a push with the event "Football", then the header, then the identity with a blank line |
| Notifier.RunPushesOncePerIdentity | check_footy.py:82-132 | When games.log is missing or ends a line and the titles are single lines: a run sends exactly one push per identity it logs, those identities are distinct and were not in the log before, so no identity is pushed twice within a run |
| Notifier.RunLogsEachIdentityOnce | check_footy.py:127-132 | When games.log is missing or ends a line and the titles are single lines: within one run each identity is logged at most once, and only when it was not in the log before. It is in the log afterwards |
| Notifier.AllLoggedExtend | check_footy.py:127-132 | the games logged so far stay logged as the log grows |
| Notifier.RunNotifiesAll | check_footy.py:127-132 | when games.log is missing or ends a line and the titles are single lines, after a run that completes and is not a dry run, every game's identity is in the log |
| Notifier.RunCompletes | check_footy.py:127-132 | with the key set and every game dated, a run completes, dry or not |
| Notifier.RunLogsAll | check_footy.py:127-132 | when games.log is missing or ends a line and the titles are single lines, a run with the key set over dated games completes, not on a dry run, and leaves every game's identity in the log |
| Notifier.StepLinesFrom | check_footy.py:82-100 | when games.log is missing or ends a line and the title is a single line, every line after a call was a line before, or is the identity it logged, its header, or blank |
| Notifier.RunLinesFrom | check_footy.py:82-132 | when games.log is missing or ends a line and the titles are single lines, every line after a run was a line before, or is an identity the run logged (and pushed, by `RunEntries`), a header of the run, or blank |
| Notifier.RunInert | check_footy.py:127-132 | when every game is already in the log, a run completes without effects |
| Notifier.RunTwice | check_footy.py:127-132 | when games.log is missing or ends a line and the titles are single lines, a second run in the same year over the same games, after one that completed, sends nothing and writes nothing |
| Notifier.GamesHaveSingleLineTitles | check_footy.py:124-125 | every game's title has no line boundary |
| Notifier.CheckFooty | check_footy.py:142-145 | A tag the constructor refuses ends the script with that error and no effects. Otherwise the outcome and the new world are those of notifying the games, not on a dry run |
| Notifier.CheckFootyTwice | check_footy.py:142-145 | when games.log is missing or ends a line, running the script again in the same year on the same page, after a run that completed, sends nothing and leaves games.log unchanged |
| Notifier.NewYearNotifiesAgain | check_footy.py:73-100 | when games.log did not exist before and the game listed as "Thu 02nd Jan" is logged in 2025, `has_been_notified` finds it in 2025 and does not find it in 2026 |

## Left out

- Fetching and parsing the page (`get_web_soup`, requests, BeautifulSoup) is not modelled. Each `div.class-other-details` tag is given as its heading text, if any, and its list of stripped strings.
- The push is not modelled as an HTTP call: `simplepush.send` is taken to always succeed and is only recorded as an effect. A failing send is not modelled.
- `datetime.now()` and `datetime.today()` become parameters: one year and one timestamp per run, with the timestamp assumed to hold no line break. The script reads the clock separately in the logging call and in `log`, and it re-reads the year every time `date` is computed. The model assumes all of these readings agree within a run.
- Writes to `check-footy.log` and standard error through `logging` are not modelled. They only report progress. The calls that compute the identity for a message are kept, because the identity can raise.
- The setup code is not modelled: `APP_DIR.mkdir`, the environment lookup itself (the variable is a parameter), and the file-existence check (an absent file is `None`).
- `Class.get_key` and `Class.now` are not modelled separately. They only wrap `get_simplepush_key` and the clock.
- `\w` and `\d` are modelled on ASCII only. Python's Unicode letters and digits are not modelled.
- Month and weekday names use the English C locale. Other locales are not modelled.
- `read_text` opens games.log in universal-newline mode, which makes every `\r\n` and `\r` a `\n`. That does not change how `splitlines()` cuts the text, so the model reads the raw text.
- Runs in different calendar years are not treated as repeats: the model reads the year as a parameter, and a session still listed after New Year gets a new identity and is notified again, as the script does.
- Concurrent runs that append to games.log at the same time are not modelled.
