/**
 * The sessions listed on the booking page (check_footy.py, class `Class`
 * and `Web.get_all_classes` / `Web.get_7_football_games`): a session is built
 * from its tag by splitting the heading into sport and location, its date is
 * read from the fourth string of the tag, and its identity (`repr`) is the
 * key under which the notification log remembers it.
 */
module Sessions {
  import opened Wrappers
  import opened Errors
  import opened Text
  import opened Calendar
  import opened DateLine
  import opened Lines

  /**
   * What the script reads from one `div.class-other-details` element: the
   * text of its `h3` heading (None when it has none) and its stripped strings.
   */
  datatype Tag = Tag(heading: Option<string>, strings: seq<string>)

  /** An instance of `Class`: the tag and the fields its constructor sets. */
  datatype Session = Session(tag: Tag, title: string, sport: string, location: string)

  const SEPARATOR: string := " @ "
  const GAME_TITLE: string := "7 a side football @ St Thomas'"

  /**
   * `Class(tag)`: AttributeError without a heading, ValueError when
   * `title.split(' @ ')` does not give exactly two parts; otherwise the sport
   * and the location are the two parts.
   */
  function NewSession(tag: Tag): (r: Result<Session, Error>)
    ensures r.Ok? <==> tag.heading.Some? && SplitsInTwo(tag.heading.value, SEPARATOR)
    ensures r == Err(NoHeading) <==> tag.heading.None?
    ensures r.Err? ==> r.error == NoHeading || r.error == TitleNotInTwo
    ensures r.Ok? ==>
      && r.value.tag == tag && r.value.title == tag.heading.value
      && r.value.sport + SEPARATOR + r.value.location == r.value.title
      && (forall j :: !OccursAt(r.value.sport, SEPARATOR, j))
      && (forall j :: !OccursAt(r.value.location, SEPARATOR, j))
  {
    match tag.heading
    case None => Err(NoHeading)
    case Some(title) =>
      var parts := Split(title, SEPARATOR);
      SplitInTwo(title, SEPARATOR);
      if |parts| != 2 then Err(TitleNotInTwo)
      else
        assert Join(parts, SEPARATOR) == parts[0] + SEPARATOR + parts[1];
        assert forall j :: !OccursAt(parts[0], SEPARATOR, j) by {
          forall j { SplitPartsLackSeparator(title, SEPARATOR, 0, j); }
        }
        assert forall j :: !OccursAt(parts[1], SEPARATOR, j) by {
          forall j { SplitPartsLackSeparator(title, SEPARATOR, 1, j); }
        }
        Ok(Session(tag, title, parts[0], parts[1]))
  }

  /**
   * The sport is the text before the first " @ " of the title, as
   * `split(' @ ')` cuts at the first occurrence it finds.
   */
  lemma NewSessionSplitsAtFirst(tag: Tag)
    requires NewSession(tag).Ok?
    ensures Find(NewSession(tag).value.title, SEPARATOR) == Some(|NewSession(tag).value.sport|)
  {
    SplitInTwo(tag.heading.value, SEPARATOR);
    SplitFirstPart(tag.heading.value, SEPARATOR);
  }

  /**
   * `Web.get_all_classes`: one session per tag, in order; the first tag the
   * constructor refuses raises its error and no list is made.
   */
  function AllClasses(tags: seq<Tag>): (r: Result<seq<Session>, Error>)
    ensures r.Ok? ==> |r.value| == |tags| && forall k :: 0 <= k < |tags| ==> NewSession(tags[k]) == Ok(r.value[k])
    ensures r.Err? ==> r.error == NoHeading || r.error == TitleNotInTwo
  {
    if tags == [] then Ok([])
    else
      var init := tags[..|tags| - 1];
      assert forall l :: 0 <= l < |init| ==> init[l] == tags[l];
      match AllClasses(init)
      case Err(e) => Err(e)
      case Ok(sessions) =>
        match NewSession(tags[|tags| - 1])
        case Err(e) => Err(e)
        case Ok(s) =>
          BuiltSnoc(tags, sessions, s);
          Ok(sessions + [s])
  }

  lemma BuiltSnoc(tags: seq<Tag>, sessions: seq<Session>, s: Session)
    requires tags != [] && |sessions| == |tags| - 1
    requires forall k :: 0 <= k < |sessions| ==> NewSession(tags[k]) == Ok(sessions[k])
    requires NewSession(tags[|tags| - 1]) == Ok(s)
    ensures forall k :: 0 <= k < |tags| ==> NewSession(tags[k]) == Ok((sessions + [s])[k])
  {
    forall k | 0 <= k < |tags|
      ensures NewSession(tags[k]) == Ok((sessions + [s])[k])
    {
      if k < |sessions| {
        assert (sessions + [s])[k] == sessions[k];
      } else {
        assert (sessions + [s])[k] == s;
      }
    }
  }

  /** When the list fails, the error is that of the first tag the constructor refuses. */
  lemma {:induction false} AllClassesFirstError(tags: seq<Tag>)
    requires AllClasses(tags).Err?
    ensures exists k ::
      && 0 <= k < |tags| && NewSession(tags[k]) == Err(AllClasses(tags).error)
      && forall l :: 0 <= l < k ==> NewSession(tags[l]).Ok?
  {
    var init := tags[..|tags| - 1];
    if AllClasses(init).Err? {
      AllClassesFirstError(init);
      var k :| 0 <= k < |init| && NewSession(init[k]) == Err(AllClasses(init).error)
        && forall l :: 0 <= l < k ==> NewSession(init[l]).Ok?;
      assert init[k] == tags[k];
      assert forall l :: 0 <= l < k ==> init[l] == tags[l];
    } else {
      var k := |tags| - 1;
      assert forall l :: 0 <= l < k ==> NewSession(tags[l]).Ok? by {
        forall l | 0 <= l < k ensures NewSession(tags[l]).Ok? {
          assert init[l] == tags[l];
        }
      }
    }
  }

  /** `Web.get_7_football_games`: the sessions titled GAME_TITLE, in their order. */
  function FootballGames(classes: seq<Session>): (games: seq<Session>)
    ensures |games| <= |classes|
    ensures forall k :: 0 <= k < |games| ==> games[k].title == GAME_TITLE
  {
    if classes == [] then []
    else
      var last := classes[|classes| - 1];
      var init := FootballGames(classes[..|classes| - 1]);
      if last.title == GAME_TITLE then init + [last] else init
  }

  /** The positions of the sessions titled GAME_TITLE. */
  ghost function GameIndices(classes: seq<Session>): seq<nat>
  {
    if classes == [] then []
    else
      GameIndices(classes[..|classes| - 1])
        + if classes[|classes| - 1].title == GAME_TITLE then [|classes| - 1] else []
  }

  /** Every position of a game is a position of the classes, before |classes|. */
  lemma {:induction false} GameIndicesBelow(classes: seq<Session>)
    ensures forall k :: 0 <= k < |GameIndices(classes)| ==> GameIndices(classes)[k] < |classes|
  {
    if classes != [] {
      GameIndicesBelow(classes[..|classes| - 1]);
    }
  }

  /** The k-th game is the session at the k-th position. */
  lemma {:induction false} FootballGamesAt(classes: seq<Session>)
    ensures var games, idx := FootballGames(classes), GameIndices(classes);
      && |games| == |idx|
      && forall k :: 0 <= k < |idx| ==> idx[k] < |classes| && games[k] == classes[idx[k]]
  {
    GameIndicesBelow(classes);
    if classes != [] {
      var init := classes[..|classes| - 1];
      FootballGamesAt(init);
      GameIndicesBelow(init);
      assert forall i :: 0 <= i < |init| ==> classes[i] == init[i];
    }
  }

  /** The positions of the games increase. */
  lemma {:induction false} GameIndicesIncrease(classes: seq<Session>)
    ensures forall k, l :: 0 <= k < l < |GameIndices(classes)| ==> GameIndices(classes)[k] < GameIndices(classes)[l]
  {
    if classes != [] {
      GameIndicesIncrease(classes[..|classes| - 1]);
      GameIndicesBelow(classes[..|classes| - 1]);
    }
  }

  /** A position holds a game precisely when its session has the game title. */
  lemma {:induction false} GameIndicesExact(classes: seq<Session>)
    ensures forall i :: 0 <= i < |classes| ==> (i in GameIndices(classes) <==> classes[i].title == GAME_TITLE)
  {
    if classes != [] {
      var init := classes[..|classes| - 1];
      GameIndicesExact(init);
      GameIndicesBelow(init);
      assert forall i :: 0 <= i < |init| ==> classes[i] == init[i];
    }
  }

  /**
   * The filter keeps exactly the sessions titled GAME_TITLE: the k-th game is
   * the session at the k-th such position, the positions increase, and a
   * position is skipped precisely when the title there differs.
   */
  lemma FootballGamesSubsequence(classes: seq<Session>)
    ensures var games, idx := FootballGames(classes), GameIndices(classes);
      && |games| == |idx|
      && (forall k :: 0 <= k < |idx| ==> idx[k] < |classes| && games[k] == classes[idx[k]])
      && (forall k, l :: 0 <= k < l < |idx| ==> idx[k] < idx[l])
      && (forall i :: 0 <= i < |classes| ==> (i in idx <==> classes[i].title == GAME_TITLE))
  {
    FootballGamesAt(classes);
    GameIndicesIncrease(classes);
    GameIndicesExact(classes);
  }

  /**
   * `Class.date` in the given year: the date line is `list(tag.stripped_strings)[3]`,
   * an IndexError when the tag has fewer strings, and the date is read from it.
   */
  function SessionDate(s: Session, year: int): (r: Result<Option<Date>, Error>)
    ensures r == Err(NoDateLine) <==> |s.tag.strings| < 4
    ensures r == Ok(None) <==> |s.tag.strings| >= 4 && !MatchesPattern(s.tag.strings[3])
    ensures r.Ok? && r.value.Some? ==> IsValid(r.value.value) && r.value.value.year == year
    ensures r.Err? ==> r.error == NoDateLine || r.error == BadDate
  {
    if |s.tag.strings| < 4 then Err(NoDateLine) else ParseDateLine(s.tag.strings[3], year)
  }

  /**
   * `Class.date_string`: the rendered date; a session without a date fails
   * (`get_day_suffix(None)` dereferences None).
   */
  function DateStringOf(s: Session, year: int): (r: Result<string, Error>)
    ensures r.Ok? ==> |r.value| == 12 && Printable(r.value)
    ensures r == Err(NoDate) <==> SessionDate(s, year) == Ok(None)
    ensures r.Ok? <==> SessionDate(s, year).Ok? && SessionDate(s, year).value.Some?
  {
    match SessionDate(s, year)
    case Err(e) => Err(e)
    case Ok(None) => Err(NoDate)
    case Ok(Some(d)) => Ok(DateString(d))
  }

  /**
   * `Class.__repr__`: the identity under which the log remembers a session,
   * the title alone when there is no date and the title, " on " and the
   * rendered date otherwise.
   */
  function Identity(s: Session, year: int): (r: Result<string, Error>)
    ensures r.Ok? <==> SessionDate(s, year).Ok?
    ensures r.Err? ==> r.error == SessionDate(s, year).error
    ensures r.Ok? ==> s.title <= r.value
    ensures r.Ok? ==> (r.value == s.title <==> SessionDate(s, year).value.None?)
    ensures r.Ok? && SessionDate(s, year).value.Some? ==>
      r.value == s.title + " on " + DateStringOf(s, year).value
  {
    match SessionDate(s, year)
    case Err(e) => Err(e)
    case Ok(None) => Ok(s.title)
    case Ok(Some(d)) =>
      var id := s.title + " on " + DateString(d);
      assert id[..|s.title|] == s.title;
      Ok(id)
  }

  /** The separator `__repr__` puts before the date is itself a single line. */
  lemma OnHasNoBreaks()
    ensures NoBreaks(" on ")
  {
  }

  /** The identity of a session has no line boundary when its title has none. */
  lemma IdentityHasNoBreaks(s: Session, year: int)
    requires NoBreaks(s.title) && Identity(s, year).Ok?
    ensures NoBreaks(Identity(s, year).value)
  {
    var id := Identity(s, year).value;
    if SessionDate(s, year).value.Some? {
      var ds := DateStringOf(s, year).value;
      PrintableHasNoBreaks(ds);
      OnHasNoBreaks();
      NoBreaksConcat(s.title, " on ");
      NoBreaksConcat(s.title + " on ", ds);
      assert id == s.title + " on " + ds;
    } else {
      assert id == s.title;
    }
  }

  /**
   * The identity of a dated session carries the day, with two digits, and the
   * naive suffix of that day right after the title and " on " and the weekday.
   */
  lemma IdentityShowsDay(s: Session, year: int)
    requires Identity(s, year).Ok? && SessionDate(s, year).value.Some?
    ensures var id, d := Identity(s, year).value, SessionDate(s, year).value.value;
      && id[|s.title| + 8..|s.title| + 10] == TwoDigits(d.day)
      && id[|s.title| + 10..|s.title| + 12] == DaySuffix(d.day)
  {
    var d := SessionDate(s, year).value.value;
    var ds := DateString(d);
    DateStringFields(d);
    SliceAfterPrefix(s.title + " on ", ds, 4, 6);
    SliceAfterPrefix(s.title + " on ", ds, 6, 8);
  }

  /** A slice taken past a prefix is the same slice of what follows it. */
  lemma SliceAfterPrefix(p: string, t: string, i: nat, j: nat)
    requires i <= j <= |t|
    ensures (p + t)[|p| + i..|p| + j] == t[i..j]
  {
    assert (p + t)[|p|..] == t;
  }

  /**
   * Two dated sessions with the same identity have the same title and fall
   * on the same day of the year.
   */
  lemma IdentityDeterminesDay(s1: Session, s2: Session, year: int)
    requires Identity(s1, year).Ok? && SessionDate(s1, year).value.Some?
    requires Identity(s2, year).Ok? && SessionDate(s2, year).value.Some?
    requires Identity(s1, year) == Identity(s2, year)
    ensures s1.title == s2.title
    ensures SessionDate(s1, year).value.value.month == SessionDate(s2, year).value.value.month
    ensures SessionDate(s1, year).value.value.day == SessionDate(s2, year).value.value.day
  {
    var d1, d2 := SessionDate(s1, year).value.value, SessionDate(s2, year).value.value;
    var id := Identity(s1, year).value;
    var n := |id| - 12;
    assert id == (s1.title + " on ") + DateString(d1);
    assert id == (s2.title + " on ") + DateString(d2);
    assert id[..n] == s1.title + " on " && id[n..] == DateString(d1);
    assert id[..n] == s2.title + " on " && id[n..] == DateString(d2);
    assert s1.title == id[..n][..n - 4] == s2.title;
    DateStringDeterminesDay(d1, d2);
  }

  /** The fixed title is a single line, so its identity can be found in the log. */
  lemma GameTitleHasNoBreaks()
    ensures NoBreaks(GAME_TITLE)
  {
    PrintableHasNoBreaks(GAME_TITLE);
  }

  /**
   * The year is re-read on every run and the weekday is recomputed from it:
   * a session listed with the date line "Thu 02nd Jan" has one identity in
   * 2025 and another in 2026, so a log written in 2025 does not hold it in 2026.
   */
  lemma NewYearNewIdentity(s: Session)
    requires |s.tag.strings| >= 4 && s.tag.strings[3] == "Thu 02nd Jan"
    ensures Identity(s, 2025) == Ok(s.title + " on " + "Thu 02nd Jan")
    ensures Identity(s, 2026) == Ok(s.title + " on " + "Fri 02nd Jan")
  {
    NewYearReadsLine();
    NewYearShiftsWeekday();
    assert DateStringOf(s, 2025) == Ok("Thu 02nd Jan") by {
      assert SessionDate(s, 2025) == Ok(Some(Date(2025, 1, 2)));
    }
    assert DateStringOf(s, 2026) == Ok("Fri 02nd Jan") by {
      assert SessionDate(s, 2026) == Ok(Some(Date(2026, 1, 2)));
    }
  }
}
