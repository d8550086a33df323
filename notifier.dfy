/**
 * The notification side of the script (check_footy.py, `Class.has_been_notified`,
 * `Class.notify`, `Class.log`, `Web`, `get_simplepush_key`, `main`).
 *
 * The part of the world the script changes is the text of games.log, absent
 * until the first notification is logged, and the push notifications it hands
 * to simplepush. Both are kept in a `World` object; the effects are recorded
 * in order, so that a push is seen to be sent before the log is written.
 * Each method is proved against a function on the state (`NotifyStep`,
 * `LogStep`, `RunSteps`), and the properties of the log are lemmas about
 * those functions.
 */
module Notifier {
  import opened Wrappers
  import opened Errors
  import opened Text
  import opened Calendar
  import opened DateLine
  import opened Lines
  import opened Sessions

  /** The time of the run, `datetime.now().replace(microsecond=0)` as the f-string prints it: one line of text. */
  type Timestamp = s: string | NoBreaks(s)

  /** `simplepush.send(key, title, message, event)`. */
  datatype Push = Push(key: string, title: string, message: string, event: string)

  const EVENT: string := "Football"

  /** What the script does to the outside world: a push handed to simplepush, or text appended to games.log. */
  datatype Effect = Sent(push: Push) | Written(chunk: string)

  /** games.log (None while the file does not exist) and the effects so far, oldest first. */
  datatype WorldState = WorldState(gamesLog: Option<string>, effects: seq<Effect>)

  /** The new state, whether the call completed or raised, and the identities it wrote to the log. */
  datatype StepResult = StepResult(state: WorldState, outcome: Outcome<Error>, logged: seq<string>)

  /** `get_simplepush_key`: the SIMPLEPUSH environment variable, or KeyError. */
  function GetSimplepushKey(env: Option<string>): (r: Result<string, Error>)
    ensures r.Ok? <==> env.Some?
    ensures r.Ok? ==> r.value == env.value
    ensures r.Err? ==> r.error == MissingKey
  {
    match env
    case None => Err(MissingKey)
    case Some(key) => Ok(key)
  }

  /** The text of games.log; appending to a missing file creates it empty first. */
  function FileText(gamesLog: Option<string>): string {
    if gamesLog.Some? then gamesLog.value else ""
  }

  /** The lines `read_text().splitlines()` gives for games.log. */
  function LogLines(gamesLog: Option<string>): seq<string> {
    SplitLines(FileText(gamesLog))
  }

  /** The identity is one of the lines of an existing games.log. */
  predicate Notified(gamesLog: Option<string>, id: string) {
    gamesLog.Some? && id in SplitLines(gamesLog.value)
  }

  /** Every line of the log `before` is still a line of the log `after`. */
  ghost predicate Persists(before: Option<string>, after: Option<string>) {
    forall x :: Notified(before, x) ==> Notified(after, x)
  }

  /** Appending to games.log starts a new line: the file is missing, or empty, or ends with a line boundary. */
  predicate Clean(gamesLog: Option<string>) {
    gamesLog.None? || EndsLine(gamesLog.value)
  }

  function Header(ts: Timestamp): string {
    "Sending push notification at " + ts + ":\n"
  }

  /** The header as it reads back as a line of the log. */
  function HeaderLine(ts: Timestamp): string {
    "Sending push notification at " + ts + ":"
  }

  function IdLine(id: string): string {
    id + "\n\n"
  }

  /**
   * `Class.has_been_notified`: False when games.log does not exist; otherwise
   * whether the identity, which may fail to compute, is one of its lines.
   */
  function HasBeenNotified(gamesLog: Option<string>, s: Session, year: int): (r: Result<bool, Error>)
    ensures gamesLog.None? ==> r == Ok(false)
    ensures gamesLog.Some? ==> r.Ok? == Identity(s, year).Ok?
    ensures r.Ok? ==> (r.value <==> Identity(s, year).Ok? && Notified(gamesLog, Identity(s, year).value))
    ensures r.Err? ==> r.error == Identity(s, year).error
    ensures gamesLog == Some("") && Identity(s, year).Ok? ==> r == Ok(false)
  {
    match gamesLog
    case None => Ok(false)
    case Some(text) =>
      match Identity(s, year)
      case Err(e) => Err(e)
      case Ok(id) => Ok(id in SplitLines(text))
  }

  /**
   * `Class.log`: opens games.log for appending, writes the header, then
   * computes the identity and writes it followed by a blank line. When the
   * identity fails, only the header has been written.
   */
  function LogStep(st: WorldState, s: Session, year: int, ts: Timestamp): (r: StepResult)
    ensures r.state.gamesLog.Some?
    ensures r.outcome.Pass? <==> Identity(s, year).Ok?
    ensures r.outcome.Pass? ==>
      && r.state.gamesLog.value == FileText(st.gamesLog) + Header(ts) + IdLine(Identity(s, year).value)
      && r.state.effects == st.effects + [Written(Header(ts)), Written(IdLine(Identity(s, year).value))]
      && r.logged == [Identity(s, year).value]
    ensures r.outcome.Fail? ==>
      && r.state.gamesLog.value == FileText(st.gamesLog) + Header(ts)
      && r.state.effects == st.effects + [Written(Header(ts))]
      && r.logged == [] && r.outcome.error == Identity(s, year).error
  {
    var text := FileText(st.gamesLog) + Header(ts);
    var effects := st.effects + [Written(Header(ts))];
    match Identity(s, year)
    case Err(e) => StepResult(WorldState(Some(text), effects), Fail(e), [])
    case Ok(id) => StepResult(WorldState(Some(text + IdLine(id)), effects + [Written(IdLine(id))]), Pass, [id])
  }

  /**
   * `Class.notify(dry_run)`: nothing happens when the session is already in
   * the log; the identity is computed for the message logged next; on a dry
   * run that is all. Otherwise the arguments of the push are evaluated in
   * order (the key, which may be missing, then the rendered date, which a
   * session without a date does not have), the push is sent and the session
   * is logged.
   */
  function NotifyStep(st: WorldState, s: Session, year: int, ts: Timestamp, env: Option<string>, dryRun: bool): (r: StepResult)
    ensures r.outcome.Fail? ==> r.state == st && r.logged == []
    ensures |r.logged| <= 1
  {
    match HasBeenNotified(st.gamesLog, s, year)
    case Err(e) => StepResult(st, Fail(e), [])
    case Ok(true) => StepResult(st, Pass, [])
    case Ok(false) =>
      match Identity(s, year)
      case Err(e) => StepResult(st, Fail(e), [])
      case Ok(_) =>
        if dryRun then StepResult(st, Pass, [])
        else
          match GetSimplepushKey(env)
          case Err(e) => StepResult(st, Fail(e), [])
          case Ok(key) =>
            match DateStringOf(s, year)
            case Err(e) => StepResult(st, Fail(e), [])
            case Ok(message) =>
              var sent := WorldState(st.gamesLog, st.effects + [Sent(Push(key, s.title, message, EVENT))]);
              LogStep(sent, s, year, ts)
  }

  /**
   * `Web.notify(dry_run)`: the games in order, each notified in the state
   * the previous one left; the first exception ends the loop and propagates.
   */
  function RunSteps(st: WorldState, games: seq<Session>, year: int, ts: Timestamp, env: Option<string>, dryRun: bool): (r: StepResult)
    ensures games == [] ==> r == StepResult(st, Pass, [])
    ensures |r.logged| <= |games|
    decreases |games|
  {
    if games == [] then StepResult(st, Pass, [])
    else
      var before := RunSteps(st, games[..|games| - 1], year, ts, env, dryRun);
      if before.outcome.Fail? then before
      else
        var step := NotifyStep(before.state, games[|games| - 1], year, ts, env, dryRun);
        NotifyStepShape(before.state, games[|games| - 1], year, ts, env, dryRun);
        StepResult(step.state, step.outcome, before.logged + step.logged)
  }

  /** Once a game has failed, the games after it are not notified. */
  lemma {:induction false} RunStopsAtFailure(st: WorldState, games: seq<Session>, k: nat, year: int, ts: Timestamp, env: Option<string>, dryRun: bool)
    requires k <= |games| && RunSteps(st, games[..k], year, ts, env, dryRun).outcome.Fail?
    ensures RunSteps(st, games, year, ts, env, dryRun) == RunSteps(st, games[..k], year, ts, env, dryRun)
    decreases |games| - k
  {
    if k == |games| {
      assert games[..k] == games;
    } else {
      var init := games[..|games| - 1];
      assert init[..k] == games[..k];
      RunStopsAtFailure(st, init, k, year, ts, env, dryRun);
    }
  }

  /** One more game, after the ones before it completed. */
  lemma RunStepsNext(st: WorldState, games: seq<Session>, i: nat, year: int, ts: Timestamp, env: Option<string>, dryRun: bool)
    requires i < |games| && RunSteps(st, games[..i], year, ts, env, dryRun).outcome == Pass
    ensures var step := NotifyStep(RunSteps(st, games[..i], year, ts, env, dryRun).state, games[i], year, ts, env, dryRun);
      && RunSteps(st, games[..i + 1], year, ts, env, dryRun).state == step.state
      && RunSteps(st, games[..i + 1], year, ts, env, dryRun).outcome == step.outcome
  {
    assert games[..i + 1][..i] == games[..i];
  }

  /** The header is one line of the log. */
  lemma HeaderLineHasNoBreaks(ts: Timestamp)
    ensures NoBreaks(HeaderLine(ts)) && Header(ts) == HeaderLine(ts) + "\n"
  {
    PrintableHasNoBreaks("Sending push notification at ");
    NoBreaksConcat("Sending push notification at ", ts);
    assert NoBreaks(":");
    NoBreaksConcat("Sending push notification at " + ts, ":");
  }

  /** A logged identity followed by the blank line reads back as the identity and an empty line. */
  lemma IdLineLines(id: string)
    requires NoBreaks(id)
    ensures SplitLines(IdLine(id)) == [id, ""]
  {
    assert IdLine(id) == id + "\n" + ("" + "\n" + "");
    SplitLinesFirst(id, "" + "\n" + "");
    SplitLinesFirst("", "");
  }

  /**
   * What one log entry adds to the lines of games.log: after text that ends
   * a line, the old lines are kept and the header, the identity and an empty
   * line follow.
   */
  lemma LogEntryLines(text: string, ts: Timestamp, id: string)
    requires EndsLine(text) && NoBreaks(id)
    ensures SplitLines(text + Header(ts) + IdLine(id)) == SplitLines(text) + [HeaderLine(ts), id, ""]
  {
    var entry := Header(ts) + IdLine(id);
    EntryLines(ts, id);
    SplitLinesAppend(text, entry);
    assert text + Header(ts) + IdLine(id) == text + entry;
  }

  /** One log entry on its own splits into the header line, the identity and an empty line. */
  lemma EntryLines(ts: Timestamp, id: string)
    requires NoBreaks(id)
    ensures var entry := Header(ts) + IdLine(id);
      entry != [] && entry[0] == 'S' && SplitLines(entry) == [HeaderLine(ts), id, ""]
  {
    HeaderLineHasNoBreaks(ts);
    IdLineLines(id);
    var entry := Header(ts) + IdLine(id);
    assert entry == HeaderLine(ts) + "\n" + IdLine(id);
    SplitLinesFirst(HeaderLine(ts), IdLine(id));
    assert entry[0] == 'S';
  }

  /** Appending a log entry to text that ends a line keeps its lines and again ends a line. */
  lemma LogEntryKeepsLines(text: string, ts: Timestamp, id: string)
    requires EndsLine(text)
    ensures var after := text + Header(ts) + IdLine(id);
      && text <= after && EndsLine(after)
      && forall x :: x in SplitLines(text) ==> x in SplitLines(after)
  {
    var entry := Header(ts) + IdLine(id);
    assert text + Header(ts) + IdLine(id) == text + entry;
    assert entry[0] == 'S';
    SplitLinesAppend(text, entry);
  }

  /**
   * A games.log whose one line has no boundary after it (so not `Clean`):
   * logging another session glues the header onto that line, the line's
   * identity is no longer a line of the log, and its session counts as not
   * notified again.
   */
  lemma UncleanLogLosesLastLine(st: WorldState, s: Session, year: int, ts: Timestamp, last: string)
    requires st.gamesLog == Some(last) && last != [] && NoBreaks(last)
    requires Identity(s, year).Ok? && NoBreaks(Identity(s, year).value) && Identity(s, year).value != last
    ensures Notified(st.gamesLog, last) && !Clean(st.gamesLog)
    ensures !Notified(LogStep(st, s, year, ts).state.gamesLog, last)
  {
    SingleLine(last);
    GluedEntryLines(last, ts, Identity(s, year).value);
  }

  /** An entry appended right after a line without a final boundary continues that line. */
  lemma GluedEntryLines(last: string, ts: Timestamp, id: string)
    requires NoBreaks(last) && NoBreaks(id)
    ensures SplitLines(last + Header(ts) + IdLine(id)) == [last + HeaderLine(ts), id, ""]
    ensures |last + HeaderLine(ts)| > |last|
  {
    var glued := last + HeaderLine(ts);
    assert NoBreaks(glued) by {
      HeaderLineHasNoBreaks(ts);
      NoBreaksConcat(last, HeaderLine(ts));
    }
    assert last + Header(ts) + IdLine(id) == glued + "\n" + IdLine(id) by {
      HeaderLineHasNoBreaks(ts);
    }
    SplitLinesFirst(glued, IdLine(id));
    IdLineLines(id);
  }

  /**
   * Whatever the log held before, even text without a final line boundary,
   * the identity just logged is one of its lines.
   */
  lemma LoggedIdentityIsALine(text: string, ts: Timestamp, id: string)
    requires NoBreaks(id)
    ensures id in SplitLines(text + Header(ts) + IdLine(id))
    ensures EndsLine(text + Header(ts) + IdLine(id))
  {
    var before := text + Header(ts);
    assert before[|before| - 1] == '\n';
    IdLineLines(id);
    SplitLinesAppend(before, IdLine(id));
    assert (SplitLines(before) + [id, ""])[|SplitLines(before)|] == id;
  }

  /**
   * The two things a notification can do: leave the state exactly as it was,
   * or, for a session not yet in the log and not on a dry run, send the push
   * and then write one log entry, completing normally.
   */
  lemma NotifyStepShape(st: WorldState, s: Session, year: int, ts: Timestamp, env: Option<string>, dryRun: bool)
    ensures var r := NotifyStep(st, s, year, ts, env, dryRun);
      && (r.logged == [] ==> r.state == st)
      && (r.logged != [] ==>
        && !dryRun && HasBeenNotified(st.gamesLog, s, year) == Ok(false)
        && env.Some? && DateStringOf(s, year).Ok?
        && Identity(s, year).Ok? && r.logged == [Identity(s, year).value] && r.outcome == Pass
        && r.state.gamesLog == Some(FileText(st.gamesLog) + Header(ts) + IdLine(Identity(s, year).value))
        && r.state.effects == st.effects + [
             Sent(Push(env.value, s.title, DateStringOf(s, year).value, EVENT)),
             Written(Header(ts)), Written(IdLine(Identity(s, year).value))])
      && (r.outcome == Pass && !dryRun ==> r.logged != [] || HasBeenNotified(st.gamesLog, s, year) == Ok(true))
  {
    NotifyStepUnchanged(st, s, year, ts, env, dryRun);
    if NotifyStep(st, s, year, ts, env, dryRun).logged != [] {
      NotifyStepLogged(st, s, year, ts, env, dryRun);
    }
  }

  /**
   * When a call completes and when it sends: it completes exactly when the
   * session is already logged, or it has an identity and either this is a
   * dry run or the key and the rendered date are there; it sends and logs
   * exactly when it is not a dry run, the session is not yet logged, and the
   * key and the rendered date are there.
   */
  lemma NotifyStepCompletes(st: WorldState, s: Session, year: int, ts: Timestamp, env: Option<string>, dryRun: bool)
    ensures var r := NotifyStep(st, s, year, ts, env, dryRun);
      r.outcome == Pass <==>
        || HasBeenNotified(st.gamesLog, s, year) == Ok(true)
        || (Identity(s, year).Ok? && (dryRun || (env.Some? && DateStringOf(s, year).Ok?)))
    ensures var r := NotifyStep(st, s, year, ts, env, dryRun);
      r.logged != [] <==>
        !dryRun && HasBeenNotified(st.gamesLog, s, year) == Ok(false) && env.Some? && DateStringOf(s, year).Ok?
  {
    NotifyStepShape(st, s, year, ts, env, dryRun);
  }

  /** A call that logs nothing leaves the world as it was; one that completes not on a dry run either logs or finds the session logged. */
  lemma NotifyStepUnchanged(st: WorldState, s: Session, year: int, ts: Timestamp, env: Option<string>, dryRun: bool)
    ensures var r := NotifyStep(st, s, year, ts, env, dryRun);
      && (r.logged == [] ==> r.state == st)
      && (r.outcome == Pass && !dryRun ==> r.logged != [] || HasBeenNotified(st.gamesLog, s, year) == Ok(true))
  {
  }

  /** A call that logs the session has sent the push and written one entry. */
  lemma NotifyStepLogged(st: WorldState, s: Session, year: int, ts: Timestamp, env: Option<string>, dryRun: bool)
    requires NotifyStep(st, s, year, ts, env, dryRun).logged != []
    ensures var r := NotifyStep(st, s, year, ts, env, dryRun);
      && !dryRun && HasBeenNotified(st.gamesLog, s, year) == Ok(false)
      && env.Some? && DateStringOf(s, year).Ok?
      && Identity(s, year).Ok? && r.logged == [Identity(s, year).value] && r.outcome == Pass
      && r.state.gamesLog == Some(FileText(st.gamesLog) + Header(ts) + IdLine(Identity(s, year).value))
      && r.state.effects == st.effects + [
           Sent(Push(env.value, s.title, DateStringOf(s, year).value, EVENT)),
           Written(Header(ts)), Written(IdLine(Identity(s, year).value))]
  {
    NotifyStepSends(st, s, year, ts, env, dryRun);
    var sent := [Sent(Push(env.value, s.title, DateStringOf(s, year).value, EVENT))];
    var written := [Written(Header(ts)), Written(IdLine(Identity(s, year).value))];
    assert NotifyStep(st, s, year, ts, env, dryRun).state.effects == (st.effects + sent) + written;
    ConcatAssoc(st.effects, sent, written);
    assert sent + written == [sent[0], written[0], written[1]];
  }

  /** A call that logs the session got past every check and went on to `log` after sending. */
  lemma NotifyStepSends(st: WorldState, s: Session, year: int, ts: Timestamp, env: Option<string>, dryRun: bool)
    requires NotifyStep(st, s, year, ts, env, dryRun).logged != []
    ensures !dryRun && HasBeenNotified(st.gamesLog, s, year) == Ok(false) && Identity(s, year).Ok?
    ensures env.Some? && DateStringOf(s, year).Ok?
    ensures NotifyStep(st, s, year, ts, env, dryRun) ==
      LogStep(WorldState(st.gamesLog, st.effects + [Sent(Push(env.value, s.title, DateStringOf(s, year).value, EVENT))]), s, year, ts)
  {
  }

  /** A dry run changes nothing and sends nothing. */
  lemma NotifyDryRun(st: WorldState, s: Session, year: int, ts: Timestamp, env: Option<string>)
    ensures NotifyStep(st, s, year, ts, env, true).state == st
    ensures NotifyStep(st, s, year, ts, env, true).logged == []
  {
    NotifyStepShape(st, s, year, ts, env, true);
  }

  /** A session already in the log is skipped without error. */
  lemma NotifyAlreadyNotified(st: WorldState, s: Session, year: int, ts: Timestamp, env: Option<string>, dryRun: bool)
    requires Identity(s, year).Ok? && Notified(st.gamesLog, Identity(s, year).value)
    ensures NotifyStep(st, s, year, ts, env, dryRun) == StepResult(st, Pass, [])
  {
  }

  /**
   * Without the key nothing is sent and nothing is written; a session due to
   * be sent (not logged, with an identity, not a dry run) raises KeyError.
   */
  lemma NotifyMissingKey(st: WorldState, s: Session, year: int, ts: Timestamp, dryRun: bool)
    ensures NotifyStep(st, s, year, ts, None, dryRun).state == st
    ensures NotifyStep(st, s, year, ts, None, dryRun).logged == []
    ensures NotifyStep(st, s, year, ts, None, dryRun).outcome == Fail(MissingKey) <==>
      !dryRun && HasBeenNotified(st.gamesLog, s, year) == Ok(false) && Identity(s, year).Ok?
  {
    NotifyStepShape(st, s, year, ts, None, dryRun);
  }

  /**
   * A session whose identity cannot be computed raises the date's error
   * (IndexError or ValueError), from `str(self)` in the membership test or,
   * when games.log does not exist yet, in the message logged next; nothing
   * is sent or written.
   */
  lemma NotifyIdentityFails(st: WorldState, s: Session, year: int, ts: Timestamp, env: Option<string>, dryRun: bool)
    requires Identity(s, year).Err?
    ensures NotifyStep(st, s, year, ts, env, dryRun) == StepResult(st, Fail(Identity(s, year).error), [])
    ensures Identity(s, year).error == NoDateLine || Identity(s, year).error == BadDate
  {
  }

  /**
   * A session whose date line does not have the date shape has an identity
   * but no rendered date: once it is due to be sent, the call raises before
   * anything is sent or written, so nothing records it and every run fails
   * at it again.
   */
  lemma NotifyUndatedFails(st: WorldState, s: Session, year: int, ts: Timestamp, key: string)
    requires SessionDate(s, year) == Ok(None)
    requires !Notified(st.gamesLog, s.title)
    ensures NotifyStep(st, s, year, ts, Some(key), false) == StepResult(st, Fail(NoDate), [])
  {
  }

  /** A notification that completes, not on a dry run, leaves the session in the log. */
  lemma NotifiedAfterNotify(st: WorldState, s: Session, year: int, ts: Timestamp, env: Option<string>)
    requires NoBreaks(s.title)
    requires NotifyStep(st, s, year, ts, env, false).outcome == Pass
    ensures Identity(s, year).Ok?
    ensures Notified(NotifyStep(st, s, year, ts, env, false).state.gamesLog, Identity(s, year).value)
  {
    NotifyStepShape(st, s, year, ts, env, false);
    var r := NotifyStep(st, s, year, ts, env, false);
    if r.logged != [] {
      IdentityHasNoBreaks(s, year);
      LoggedIdentityIsALine(FileText(st.gamesLog), ts, Identity(s, year).value);
    }
  }

  /**
   * games.log only grows: the old text is kept at its front, the old lines
   * stay lines when the old text ended a line, and the new text ends a line.
   */
  lemma NotifyAppendOnly(st: WorldState, s: Session, year: int, ts: Timestamp, env: Option<string>, dryRun: bool)
    requires Clean(st.gamesLog)
    ensures var r := NotifyStep(st, s, year, ts, env, dryRun);
      && Clean(r.state.gamesLog)
      && FileText(st.gamesLog) <= FileText(r.state.gamesLog)
      && st.effects <= r.state.effects
      && Persists(st.gamesLog, r.state.gamesLog)
  {
    NotifyStepShape(st, s, year, ts, env, dryRun);
    if NotifyStep(st, s, year, ts, env, dryRun).logged != [] {
      LogEntryKeepsLines(FileText(st.gamesLog), ts, Identity(s, year).value);
    }
  }

  /**
   * When a session with a single-line title is logged, the lines of games.log
   * are the old lines followed by the header, the identity and an empty line.
   */
  lemma NotifyLogEntry(st: WorldState, s: Session, year: int, ts: Timestamp, env: Option<string>, dryRun: bool)
    requires Clean(st.gamesLog) && NoBreaks(s.title)
    requires NotifyStep(st, s, year, ts, env, dryRun).logged != []
    ensures var r := NotifyStep(st, s, year, ts, env, dryRun);
      LogLines(r.state.gamesLog) == LogLines(st.gamesLog) + [HeaderLine(ts), r.logged[0], ""]
  {
    NotifyStepShape(st, s, year, ts, env, dryRun);
    IdentityHasNoBreaks(s, year);
    LogEntryLines(FileText(st.gamesLog), ts, Identity(s, year).value);
  }

  /** A dry run of all the games changes nothing and sends nothing. */
  lemma {:induction false} RunDryRun(st: WorldState, games: seq<Session>, year: int, ts: Timestamp, env: Option<string>)
    ensures RunSteps(st, games, year, ts, env, true).state == st
    ensures RunSteps(st, games, year, ts, env, true).logged == []
    decreases |games|
  {
    if games != [] {
      var init := games[..|games| - 1];
      RunDryRun(st, init, year, ts, env);
      NotifyDryRun(st, games[|games| - 1], year, ts, env);
    }
  }

  /**
   * Over a whole run games.log only grows, keeps its old lines, and still
   * ends a line; the effects only grow.
   */
  lemma {:induction false} RunAppendOnly(st: WorldState, games: seq<Session>, year: int, ts: Timestamp, env: Option<string>, dryRun: bool)
    requires Clean(st.gamesLog)
    ensures var r := RunSteps(st, games, year, ts, env, dryRun);
      && Clean(r.state.gamesLog)
      && FileText(st.gamesLog) <= FileText(r.state.gamesLog)
      && st.effects <= r.state.effects
      && Persists(st.gamesLog, r.state.gamesLog)
    decreases |games|
  {
    if games != [] {
      var init := games[..|games| - 1];
      RunAppendOnly(st, init, year, ts, env, dryRun);
      var before := RunSteps(st, init, year, ts, env, dryRun);
      if before.outcome.Pass? {
        NotifyAppendOnly(before.state, games[|games| - 1], year, ts, env, dryRun);
      }
    }
  }

  /** Every game has a title without line boundaries. */
  ghost predicate SingleLineTitles(games: seq<Session>) {
    forall k :: 0 <= k < |games| ==> NoBreaks(games[k].title)
  }

  /**
   * The identities in `logged` are pairwise distinct, none of them was in the
   * log `before`, and each of them is in the log `after`.
   */
  ghost predicate FreshlyLogged(logged: seq<string>, before: Option<string>, after: Option<string>) {
    && (forall i, j :: 0 <= i < j < |logged| ==> logged[i] != logged[j])
    && (forall id :: id in logged ==> !Notified(before, id) && Notified(after, id))
  }

  lemma FreshlyLoggedExtend(logged: seq<string>, id: string, start: Option<string>, mid: Option<string>, end: Option<string>)
    requires FreshlyLogged(logged, start, mid) && Persists(start, mid) && Persists(mid, end)
    requires !Notified(mid, id) && Notified(end, id)
    ensures FreshlyLogged(logged + [id], start, end)
  {
    var all := logged + [id];
    assert forall j :: 0 <= j < |logged| ==> all[j] == logged[j];
    assert all[|logged|] == id;
  }

  /**
   * Within one run, an identity is logged at most once, only if the log did
   * not hold it before the run, and it is in the log afterwards.
   */
  lemma {:induction false} RunLogsEachIdentityOnce(st: WorldState, games: seq<Session>, year: int, ts: Timestamp, env: Option<string>, dryRun: bool)
    requires Clean(st.gamesLog) && SingleLineTitles(games)
    ensures var r := RunSteps(st, games, year, ts, env, dryRun);
      FreshlyLogged(r.logged, st.gamesLog, r.state.gamesLog)
    decreases |games|
  {
    if games != [] {
      var init, g := games[..|games| - 1], games[|games| - 1];
      RunLogsEachIdentityOnce(st, init, year, ts, env, dryRun);
      RunAppendOnly(st, init, year, ts, env, dryRun);
      var before := RunSteps(st, init, year, ts, env, dryRun);
      if before.outcome.Pass? {
        var step := NotifyStep(before.state, g, year, ts, env, dryRun);
        NotifyStepShape(before.state, g, year, ts, env, dryRun);
        NotifyAppendOnly(before.state, g, year, ts, env, dryRun);
        if step.logged != [] {
          NotifiedAfterNotify(before.state, g, year, ts, env);
          FreshlyLoggedExtend(before.logged, Identity(g, year).value, st.gamesLog, before.state.gamesLog, step.state.gamesLog);
        } else {
          assert before.logged + step.logged == before.logged;
        }
      }
    }
  }

  /** The effects of one logged entry: its push, then the header, then the identity with a blank line. */
  ghost predicate EntryEffects(added: seq<Effect>, id: string, ts: Timestamp) {
    && |added| == 3
    && added[0].Sent? && added[0].push.event == EVENT
    && added[1] == Written(Header(ts)) && added[2] == Written(IdLine(id))
  }

  /** `added` is one entry per identity in `ids`, in the same order. */
  ghost predicate EntriesFor(added: seq<Effect>, ids: seq<string>, ts: Timestamp)
    decreases |ids|
  {
    if ids == [] then added == []
    else
      && |added| >= 3
      && EntriesFor(added[..|added| - 3], ids[..|ids| - 1], ts)
      && EntryEffects(added[|added| - 3..], ids[|ids| - 1], ts)
  }

  /** The number of pushes among the effects. */
  function CountSent(effects: seq<Effect>): (n: nat)
    ensures n <= |effects|
  {
    if effects == [] then 0
    else CountSent(effects[..|effects| - 1]) + (if effects[|effects| - 1].Sent? then 1 else 0)
  }

  lemma {:induction false} CountSentAppend(a: seq<Effect>, b: seq<Effect>)
    ensures CountSent(a + b) == CountSent(a) + CountSent(b)
    decreases |b|
  {
    if b == [] {
      assert a + b == a;
    } else {
      var init := b[..|b| - 1];
      assert (a + b)[..|a + b| - 1] == a + init;
      assert (a + b)[|a + b| - 1] == b[|b| - 1];
      CountSentAppend(a, init);
    }
  }

  /** One entry holds one push. */
  lemma EntryCountSent(e: seq<Effect>, id: string, ts: Timestamp)
    requires EntryEffects(e, id, ts)
    ensures CountSent(e) == 1
  {
    var e1, e2 := e[..1], e[..2];
    assert e1[..0] == [] && e1[0] == e[0] && e1 == [e[0]];
    assert e2[..1] == e1 && e2[1] == e[1];
    assert e[..2] == e2 && e[2] == e[2];
    assert CountSent(e1) == 1;
    assert CountSent(e2) == 1;
  }

  /** The entries for `ids` hold `|ids|` pushes. */
  lemma {:induction false} EntriesCountSent(added: seq<Effect>, ids: seq<string>, ts: Timestamp)
    requires EntriesFor(added, ids, ts)
    ensures CountSent(added) == |ids|
    decreases |ids|
  {
    if ids != [] {
      var n := |added|;
      EntriesCountSent(added[..n - 3], ids[..|ids| - 1], ts);
      EntryCountSent(added[n - 3..], ids[|ids| - 1], ts);
      assert added == added[..n - 3] + added[n - 3..];
      CountSentAppend(added[..n - 3], added[n - 3..]);
    }
  }

  lemma EntriesForSnoc(a: seq<Effect>, ids: seq<string>, e: seq<Effect>, id: string, ts: Timestamp)
    requires EntriesFor(a, ids, ts) && EntryEffects(e, id, ts)
    ensures EntriesFor(a + e, ids + [id], ts)
  {
    assert (a + e)[..|a + e| - 3] == a;
    assert (a + e)[|a + e| - 3..] == e;
    assert (ids + [id])[..|ids|] == ids;
  }

  /** A notification adds one entry's effects for the identity it logs, and none otherwise. */
  lemma StepEntries(st: WorldState, s: Session, year: int, ts: Timestamp, env: Option<string>, dryRun: bool)
    ensures var r := NotifyStep(st, s, year, ts, env, dryRun);
      && st.effects <= r.state.effects
      && (r.logged == [] ==> r.state.effects == st.effects)
      && (r.logged != [] ==> |r.logged| == 1 && EntryEffects(r.state.effects[|st.effects|..], r.logged[0], ts))
  {
    var r := NotifyStep(st, s, year, ts, env, dryRun);
    NotifyStepShape(st, s, year, ts, env, dryRun);
    if r.logged != [] {
      assert r.state.effects[|st.effects|..] == [Sent(Push(env.value, s.title, DateStringOf(s, year).value, EVENT)),
        Written(Header(ts)), Written(IdLine(Identity(s, year).value))];
    }
  }

  /** The entries of a run so far, followed by what one more notification adds. */
  lemma EntriesExtend(e0: seq<Effect>, e1: seq<Effect>, e2: seq<Effect>, l1: seq<string>, l2: seq<string>, ts: Timestamp)
    requires e0 <= e1 <= e2 && EntriesFor(e1[|e0|..], l1, ts)
    requires l2 == [] ==> e2 == e1
    requires l2 != [] ==> |l2| == 1 && EntryEffects(e2[|e1|..], l2[0], ts)
    ensures e0 <= e2 && EntriesFor(e2[|e0|..], l1 + l2, ts)
  {
    if l2 == [] {
      assert l1 + l2 == l1;
    } else {
      EntriesExtendOne(e0, e1, e2, l1, l2[0], ts);
      assert l1 + l2 == l1 + [l2[0]];
    }
  }

  lemma EntriesExtendOne(e0: seq<Effect>, e1: seq<Effect>, e2: seq<Effect>, l1: seq<string>, id: string, ts: Timestamp)
    requires e0 <= e1 <= e2 && EntriesFor(e1[|e0|..], l1, ts)
    requires EntryEffects(e2[|e1|..], id, ts)
    ensures EntriesFor(e2[|e0|..], l1 + [id], ts)
  {
    var a, e := e1[|e0|..], e2[|e1|..];
    EntriesForSnoc(a, l1, e, id, ts);
    assert e2 == e0 + a + e;
    assert e2[|e0|..] == a + e;
  }

  /** Effects that extend `e0` by entries for `ids` hold `|ids|` more pushes. */
  lemma EntriesCount(e0: seq<Effect>, e: seq<Effect>, ids: seq<string>, ts: Timestamp)
    requires e0 <= e && EntriesFor(e[|e0|..], ids, ts)
    ensures CountSent(e) == CountSent(e0) + |ids|
  {
    var added := e[|e0|..];
    assert e == e0 + added;
    CountSentAppend(e0, added);
    EntriesCountSent(added, ids, ts);
  }

  /**
   * The effects a run adds are, in order, one entry per identity it logs:
   * the push for it, then its header, then its identity line.
   */
  lemma {:induction false} RunEntries(st: WorldState, games: seq<Session>, year: int, ts: Timestamp, env: Option<string>, dryRun: bool)
    ensures var r := RunSteps(st, games, year, ts, env, dryRun);
      st.effects <= r.state.effects && EntriesFor(r.state.effects[|st.effects|..], r.logged, ts)
    decreases |games|
  {
    if games == [] {
      assert st.effects[|st.effects|..] == [];
    } else {
      var init, g := games[..|games| - 1], games[|games| - 1];
      RunEntries(st, init, year, ts, env, dryRun);
      var before := RunSteps(st, init, year, ts, env, dryRun);
      if before.outcome.Pass? {
        var step := NotifyStep(before.state, g, year, ts, env, dryRun);
        assert RunSteps(st, games, year, ts, env, dryRun) == StepResult(step.state, step.outcome, before.logged + step.logged);
        StepEntries(before.state, g, year, ts, env, dryRun);
        EntriesExtend(st.effects, before.state.effects, step.state.effects, before.logged, step.logged, ts);
      }
    }
  }

  /**
   * Within one run each identity is pushed at most once: the run's pushes
   * are one per logged identity, in the order logged, and those identities
   * are distinct and were not in the log before.
   */
  lemma RunPushesOncePerIdentity(st: WorldState, games: seq<Session>, year: int, ts: Timestamp, env: Option<string>, dryRun: bool)
    requires Clean(st.gamesLog) && SingleLineTitles(games)
    ensures var r := RunSteps(st, games, year, ts, env, dryRun);
      && st.effects <= r.state.effects
      && EntriesFor(r.state.effects[|st.effects|..], r.logged, ts)
      && CountSent(r.state.effects) == CountSent(st.effects) + |r.logged|
      && FreshlyLogged(r.logged, st.gamesLog, r.state.gamesLog)
  {
    var r := RunSteps(st, games, year, ts, env, dryRun);
    RunEntries(st, games, year, ts, env, dryRun);
    EntriesCount(st.effects, r.state.effects, r.logged, ts);
    RunLogsEachIdentityOnce(st, games, year, ts, env, dryRun);
  }

  /** Every game has an identity, and it is one of the lines of the log. */
  ghost predicate AllLogged(gamesLog: Option<string>, games: seq<Session>, year: int) {
    forall k :: 0 <= k < |games| ==> Identity(games[k], year).Ok? && Notified(gamesLog, Identity(games[k], year).value)
  }

  lemma AllLoggedExtend(before: Option<string>, after: Option<string>, games: seq<Session>, year: int)
    requires games != [] && AllLogged(before, games[..|games| - 1], year) && Persists(before, after)
    requires Identity(games[|games| - 1], year).Ok? && Notified(after, Identity(games[|games| - 1], year).value)
    ensures AllLogged(after, games, year)
  {
    assert forall k :: 0 <= k < |games| - 1 ==> games[..|games| - 1][k] == games[k];
  }

  /** After a run that completes, not on a dry run, every game is in the log. */
  lemma {:induction false} RunNotifiesAll(st: WorldState, games: seq<Session>, year: int, ts: Timestamp, env: Option<string>)
    requires Clean(st.gamesLog) && SingleLineTitles(games)
    requires RunSteps(st, games, year, ts, env, false).outcome == Pass
    ensures AllLogged(RunSteps(st, games, year, ts, env, false).state.gamesLog, games, year)
    decreases |games|
  {
    if games != [] {
      var init, g := games[..|games| - 1], games[|games| - 1];
      var before := RunSteps(st, init, year, ts, env, false);
      RunNotifiesAll(st, init, year, ts, env);
      RunAppendOnly(st, init, year, ts, env, false);
      NotifyAppendOnly(before.state, g, year, ts, env, false);
      NotifiedAfterNotify(before.state, g, year, ts, env);
      AllLoggedExtend(before.state.gamesLog, NotifyStep(before.state, g, year, ts, env, false).state.gamesLog, games, year);
    }
  }

  /** With the key set and every game dated, a run completes. */
  lemma {:induction false} RunCompletes(st: WorldState, games: seq<Session>, year: int, ts: Timestamp, env: Option<string>, dryRun: bool)
    requires env.Some?
    requires forall k :: 0 <= k < |games| ==> DateStringOf(games[k], year).Ok?
    ensures RunSteps(st, games, year, ts, env, dryRun).outcome == Pass
    decreases |games|
  {
    if games != [] {
      var init, g := games[..|games| - 1], games[|games| - 1];
      assert forall k :: 0 <= k < |init| ==> init[k] == games[k];
      RunCompletes(st, init, year, ts, env, dryRun);
      var before := RunSteps(st, init, year, ts, env, dryRun);
      NotifyStepCompletes(before.state, g, year, ts, env, dryRun);
    }
  }

  /**
   * A run with the key set, over games that all have a date, completes and
   * leaves every game in the log.
   */
  lemma RunLogsAll(st: WorldState, games: seq<Session>, year: int, ts: Timestamp, key: string)
    requires Clean(st.gamesLog) && SingleLineTitles(games)
    requires forall k :: 0 <= k < |games| ==> DateStringOf(games[k], year).Ok?
    ensures RunSteps(st, games, year, ts, Some(key), false).outcome == Pass
    ensures AllLogged(RunSteps(st, games, year, ts, Some(key), false).state.gamesLog, games, year)
  {
    RunCompletes(st, games, year, ts, Some(key), false);
    RunNotifiesAll(st, games, year, ts, Some(key));
  }

  /**
   * Every line of the log `after` was a line of the log `before`, or is one
   * of the identities in `logged`, a header written at `ts`, or blank.
   */
  ghost predicate LinesFrom(before: Option<string>, after: Option<string>, logged: seq<string>, ts: Timestamp) {
    forall x :: Notified(after, x) ==> Notified(before, x) || x in logged || x == HeaderLine(ts) || x == ""
  }

  /** Being notified is being one of the lines games.log reads as. */
  lemma NotifiedIsLogLine(gamesLog: Option<string>, x: string)
    ensures Notified(gamesLog, x) <==> x in LogLines(gamesLog)
  {
    if gamesLog.None? {
      assert LogLines(gamesLog) == [];
    }
  }

  /** A notification writes no line but the header, the identity it logs and a blank line. */
  lemma StepLinesFrom(st: WorldState, s: Session, year: int, ts: Timestamp, env: Option<string>, dryRun: bool)
    requires Clean(st.gamesLog) && NoBreaks(s.title)
    ensures var r := NotifyStep(st, s, year, ts, env, dryRun);
      LinesFrom(st.gamesLog, r.state.gamesLog, r.logged, ts)
  {
    var r := NotifyStep(st, s, year, ts, env, dryRun);
    NotifyStepShape(st, s, year, ts, env, dryRun);
    if r.logged != [] {
      NotifyLogEntry(st, s, year, ts, env, dryRun);
      forall x | Notified(r.state.gamesLog, x)
        ensures Notified(st.gamesLog, x) || x in r.logged || x == HeaderLine(ts) || x == ""
      {
        NotifiedIsLogLine(r.state.gamesLog, x);
        NotifiedIsLogLine(st.gamesLog, x);
      }
    }
  }

  lemma LinesFromTrans(a: Option<string>, b: Option<string>, c: Option<string>, l1: seq<string>, l2: seq<string>, ts: Timestamp)
    requires LinesFrom(a, b, l1, ts) && LinesFrom(b, c, l2, ts)
    ensures LinesFrom(a, c, l1 + l2, ts)
  {
  }

  /**
   * A run writes no line but its headers, the identities it logs and blank
   * lines: every identity in games.log afterwards was there before or was
   * logged, and so pushed, by this run.
   */
  lemma {:induction false} RunLinesFrom(st: WorldState, games: seq<Session>, year: int, ts: Timestamp, env: Option<string>, dryRun: bool)
    requires Clean(st.gamesLog) && SingleLineTitles(games)
    ensures var r := RunSteps(st, games, year, ts, env, dryRun);
      LinesFrom(st.gamesLog, r.state.gamesLog, r.logged, ts)
    decreases |games|
  {
    if games != [] {
      var init, g := games[..|games| - 1], games[|games| - 1];
      assert SingleLineTitles(init) by {
        assert forall k :: 0 <= k < |init| ==> init[k] == games[k];
      }
      RunLinesFrom(st, init, year, ts, env, dryRun);
      RunAppendOnly(st, init, year, ts, env, dryRun);
      var before := RunSteps(st, init, year, ts, env, dryRun);
      if before.outcome.Pass? {
        StepLinesFrom(before.state, g, year, ts, env, dryRun);
        var step := NotifyStep(before.state, g, year, ts, env, dryRun);
        LinesFromTrans(st.gamesLog, before.state.gamesLog, step.state.gamesLog, before.logged, step.logged, ts);
      }
    }
  }

  /** When every game is already in the log, a run changes nothing and completes. */
  lemma {:induction false} RunInert(st: WorldState, games: seq<Session>, year: int, ts: Timestamp, env: Option<string>, dryRun: bool)
    requires AllLogged(st.gamesLog, games, year)
    ensures RunSteps(st, games, year, ts, env, dryRun) == StepResult(st, Pass, [])
    decreases |games|
  {
    if games != [] {
      var init, g := games[..|games| - 1], games[|games| - 1];
      assert forall k :: 0 <= k < |init| ==> init[k] == games[k];
      RunInert(st, init, year, ts, env, dryRun);
      NotifyAlreadyNotified(st, g, year, ts, env, dryRun);
    }
  }

  /**
   * Running the notifications again over the same games, after a run that
   * completed, sends nothing and writes nothing.
   */
  lemma RunTwice(st: WorldState, games: seq<Session>, year: int, ts1: Timestamp, ts2: Timestamp, env: Option<string>, dryRun: bool)
    requires Clean(st.gamesLog) && SingleLineTitles(games)
    requires RunSteps(st, games, year, ts1, env, false).outcome == Pass
    ensures var first := RunSteps(st, games, year, ts1, env, false).state;
      RunSteps(first, games, year, ts2, env, dryRun) == StepResult(first, Pass, [])
  {
    RunNotifiesAll(st, games, year, ts1, env);
    RunInert(RunSteps(st, games, year, ts1, env, false).state, games, year, ts2, env, dryRun);
  }

  /** The games picked from the page all carry the fixed, single-line title. */
  lemma GamesHaveSingleLineTitles(classes: seq<Session>)
    ensures SingleLineTitles(FootballGames(classes))
  {
    GameTitleHasNoBreaks();
  }

  /** The outside world the script acts on. */
  class World {
    var gamesLog: Option<string>
    var effects: seq<Effect>

    constructor(gamesLog: Option<string>)
      ensures this.gamesLog == gamesLog && effects == []
    {
      this.gamesLog := gamesLog;
      effects := [];
    }

    function State(): WorldState
      reads this
    {
      WorldState(gamesLog, effects)
    }

    /** `simplepush.send`: the push is recorded; games.log is not touched. */
    method Send(push: Push)
      modifies this
      ensures gamesLog == old(gamesLog)
      ensures effects == old(effects) + [Sent(push)]
    {
      effects := effects + [Sent(push)];
    }

    /** `f.write(chunk)` on games.log opened for appending, which creates the file when it is missing. */
    method Append(chunk: string)
      modifies this
      ensures gamesLog == Some(FileText(old(gamesLog)) + chunk)
      ensures effects == old(effects) + [Written(chunk)]
    {
      gamesLog := Some(FileText(gamesLog) + chunk);
      effects := effects + [Written(chunk)];
    }

    method Log(s: Session, year: int, ts: Timestamp) returns (outcome: Outcome<Error>)
      modifies this
      ensures State() == LogStep(old(State()), s, year, ts).state
      ensures outcome == LogStep(old(State()), s, year, ts).outcome
    {
      Append(Header(ts));
      var id := Identity(s, year);
      if id.Err? {
        return Fail(id.error);
      }
      Append(IdLine(id.value));
      outcome := Pass;
    }

    method Notify(s: Session, year: int, ts: Timestamp, env: Option<string>, dryRun: bool)
      returns (outcome: Outcome<Error>)
      modifies this
      ensures State() == NotifyStep(old(State()), s, year, ts, env, dryRun).state
      ensures outcome == NotifyStep(old(State()), s, year, ts, env, dryRun).outcome
    {
      var notified := HasBeenNotified(gamesLog, s, year);
      if notified.Err? {
        return Fail(notified.error);
      }
      if notified.value {
        return Pass;
      }
      var id := Identity(s, year);
      if id.Err? {
        return Fail(id.error);
      }
      if dryRun {
        return Pass;
      }
      var key := GetSimplepushKey(env);
      if key.Err? {
        return Fail(key.error);
      }
      var message := DateStringOf(s, year);
      if message.Err? {
        return Fail(message.error);
      }
      Send(Push(key.value, s.title, message.value, EVENT));
      outcome := Log(s, year, ts);
    }
  }

  /** An instance of `Web`: the sessions found on the page and the games among them. */
  class Web {
    var classes: seq<Session>
    var games: seq<Session>

    /** `Web.__init__` once the page has been read into sessions. */
    constructor(classes: seq<Session>)
      ensures this.classes == classes && games == FootballGames(classes)
    {
      this.classes := classes;
      games := FootballGames(classes);
    }

    method Notify(world: World, year: int, ts: Timestamp, env: Option<string>, dryRun: bool)
      returns (outcome: Outcome<Error>)
      modifies world
      ensures world.State() == RunSteps(old(world.State()), games, year, ts, env, dryRun).state
      ensures outcome == RunSteps(old(world.State()), games, year, ts, env, dryRun).outcome
      ensures games == [] ==> world.State() == old(world.State()) && outcome == Pass
    {
      if |games| == 0 {
        return Pass;
      }
      var gs := games;
      ghost var st0 := world.State();
      var i := 0;
      while i < |gs|
        invariant 0 <= i <= |gs|
        invariant RunSteps(st0, gs[..i], year, ts, env, dryRun).outcome == Pass
        invariant world.State() == RunSteps(st0, gs[..i], year, ts, env, dryRun).state
      {
        outcome := world.Notify(gs[i], year, ts, env, dryRun);
        RunStepsNext(st0, gs, i, year, ts, env, dryRun);
        if outcome.Fail? {
          RunStopsAtFailure(st0, gs, i + 1, year, ts, env, dryRun);
          return;
        }
        i := i + 1;
      }
      assert gs[..i] == gs;
      outcome := Pass;
    }
  }

  /**
   * `main`: the sessions are built from the tags of the page, the games are
   * picked from them and notified, not on a dry run. A tag the session
   * constructor refuses ends the script before anything is done.
   */
  method CheckFooty(world: World, tags: seq<Tag>, year: int, ts: Timestamp, env: Option<string>)
    returns (outcome: Outcome<Error>)
    modifies world
    ensures AllClasses(tags).Err? ==>
      outcome == Fail(AllClasses(tags).error) && world.State() == old(world.State())
    ensures AllClasses(tags).Ok? ==>
      var r := RunSteps(old(world.State()), FootballGames(AllClasses(tags).value), year, ts, env, false);
      world.State() == r.state && outcome == r.outcome
  {
    var classes := AllClasses(tags);
    if classes.Err? {
      return Fail(classes.error);
    }
    var web := new Web(classes.value);
    outcome := web.Notify(world, year, ts, env, false);
  }

  /**
   * Running the script again on the same page, after a run that completed,
   * sends nothing and leaves games.log as it was.
   */
  lemma CheckFootyTwice(st: WorldState, tags: seq<Tag>, year: int, ts1: Timestamp, ts2: Timestamp, env: Option<string>)
    requires Clean(st.gamesLog) && AllClasses(tags).Ok?
    requires RunSteps(st, FootballGames(AllClasses(tags).value), year, ts1, env, false).outcome == Pass
    ensures var games := FootballGames(AllClasses(tags).value);
      var first := RunSteps(st, games, year, ts1, env, false).state;
      RunSteps(first, games, year, ts2, env, false) == StepResult(first, Pass, [])
  {
    GamesHaveSingleLineTitles(AllClasses(tags).value);
    RunTwice(st, FootballGames(AllClasses(tags).value), year, ts1, ts2, env, false);
  }

  /** The 2026 rendering is none of the lines of the entry that logged the 2025 one. */
  lemma NewYearLineAbsent(t: string, ts: Timestamp)
    requires t != [] && t[0] != 'S'
    ensures t + " on " + "Fri 02nd Jan" !in [HeaderLine(ts), t + " on " + "Thu 02nd Jan", ""]
  {
    var id1, id2 := t + " on " + "Thu 02nd Jan", t + " on " + "Fri 02nd Jan";
    assert id2[0] != HeaderLine(ts)[0];
    assert id2[|t| + 4] == 'F' && id1[|t| + 4] == 'T';
  }

  /** The game title starts with '7', not with the 'S' of the header line, so the two never coincide. */
  lemma GameTitleStart()
    ensures GAME_TITLE != [] && GAME_TITLE[0] == '7'
  {
  }

  /** A log holding one entry, for `id1`, finds the session in one year and not in another where its identity is not a line of that entry. */
  lemma OneEntryLog(s: Session, y1: int, y2: int, ts: Timestamp, id1: string, id2: string)
    requires Identity(s, y1) == Ok(id1) && Identity(s, y2) == Ok(id2) && NoBreaks(id1)
    requires id2 !in [HeaderLine(ts), id1, ""]
    ensures var log := LogStep(WorldState(None, []), s, y1, ts).state.gamesLog;
      HasBeenNotified(log, s, y1) == Ok(true) && HasBeenNotified(log, s, y2) == Ok(false)
  {
    var r := LogStep(WorldState(None, []), s, y1, ts);
    assert r.state.gamesLog.value == FileText(None) + Header(ts) + IdLine(id1);
    LogEntryLines(FileText(None), ts, id1);
    assert SplitLines(r.state.gamesLog.value) == [HeaderLine(ts), id1, ""];
  }

  /**
   * The log does not carry over a year boundary: once a game listed as
   * "Thu 02nd Jan" has been logged in 2025, a run in 2026 renders it as
   * "Fri 02nd Jan", does not find that among the lines, and notifies it again.
   */
  lemma NewYearNotifiesAgain(s: Session, ts: Timestamp)
    requires s.title == GAME_TITLE && |s.tag.strings| >= 4 && s.tag.strings[3] == "Thu 02nd Jan"
    ensures var log := LogStep(WorldState(None, []), s, 2025, ts).state.gamesLog;
      HasBeenNotified(log, s, 2025) == Ok(true) && HasBeenNotified(log, s, 2026) == Ok(false)
  {
    NewYearNewIdentity(s);
    GameTitleHasNoBreaks();
    GameTitleStart();
    IdentityHasNoBreaks(s, 2025);
    NewYearLineAbsent(s.title, ts);
    OneEntryLog(s, 2025, 2026, ts, s.title + " on " + "Thu 02nd Jan", s.title + " on " + "Fri 02nd Jan");
  }
}
