/**
 * The write side of a journey (src/services/journeyService.ts): logging a
 * reading appends a log, records a completion for every verse of the range
 * that had none, refreshes the journey's counters and updates the personal
 * statistics of everyone who read.
 *
 * The Firestore collections become fields of a `JourneyStore`; a server
 * timestamp becomes the `now` parameter of the call.
 */
module JourneyService {
  import opened Wrappers
  import opened JsText
  import opened QuranData
  import opened VerseUtils
  import opened Records
  import opened StatsService
  import opened SurahProgress

  /** A member of the journey, as far as logging needs it. */
  datatype Member = Member(userId: string, displayName: string)

  /** A document of the `verseCompletions` collection, keyed by its verse. */
  datatype VerseCompletion = VerseCompletion(verseRef: string, completedAt: int, completedBy: seq<string>)

  /** The journey's `stats` counters that logging maintains. */
  datatype JourneyStats = JourneyStats(
    versesCompleted: int,
    lastActivityAt: Option<int>,
    versesReadToday: int,
    todayDate: Option<int>)

  /** A user's personal `stats`. */
  datatype UserStats = UserStats(
    currentStreak: int,
    longestStreak: int,
    totalVersesRead: int,
    totalReadings: int,
    lastReadDate: Option<int>,
    todayVersesRead: int,
    todayDate: Option<int>)

  /** What a user document without `stats` reads as. */
  const DEFAULT_STATS := UserStats(0, 0, 0, 0, None, 0, None)

  /** The name shown for a reader who is not a member or has no name. */
  function UnknownName(): string { "Unknown" }

  // ---------------------------------------------------------------------------
  // The log entry

  /** `members.find((m) => m.userId === userId)?.displayName || 'Unknown'`. */
  function NameOf(userId: string, members: seq<Member>): string
  {
    if |members| == 0 then UnknownName()
    else if members[0].userId == userId then
      (if members[0].displayName != "" then members[0].displayName else UnknownName())
    else NameOf(userId, members[1..])
  }

  /**
   * The name is that of the first member with the id, or 'Unknown' when
   * there is no such member or its name is empty.
   */
  lemma {:induction false} NameOfSpec(userId: string, members: seq<Member>)
    ensures NameOf(userId, members) != ""
    ensures (forall m :: m in members ==> m.userId != userId) ==> NameOf(userId, members) == UnknownName()
    ensures forall j ::
      (0 <= j < |members| && members[j].userId == userId && (forall l :: 0 <= l < j ==> members[l].userId != userId))
      ==> NameOf(userId, members) == (if members[j].displayName != "" then members[j].displayName else UnknownName())
  {
    if |members| > 0 {
      NameOfSpec(userId, members[1..]);
      forall j | 0 < j < |members| && members[j].userId == userId
        && (forall l :: 0 <= l < j ==> members[l].userId != userId)
        ensures members[1..][j - 1].userId == userId
          && (forall l :: 0 <= l < j - 1 ==> members[1..][l].userId != userId)
      {
        assert members[0].userId != userId;
      }
    }
  }

  /** `readByNames`: one display name per selected reader. */
  function ReadByNames(selectedUserIds: seq<string>, members: seq<Member>): (names: seq<string>)
    ensures |names| == |selectedUserIds|
    ensures forall k :: 0 <= k < |names| ==> names[k] == NameOf(selectedUserIds[k], members)
  {
    seq(|selectedUserIds|, k requires 0 <= k < |selectedUserIds| => NameOf(selectedUserIds[k], members))
  }

  /** `...(note?.trim() && { note: note.trim() })`. */
  function NoteField(note: Option<string>): Option<string>
  {
    if note.Some? && Trim(note.value) != "" then Some(Trim(note.value)) else None
  }

  /** A note is stored, trimmed, exactly when one was given that is not all white space. */
  lemma NoteFieldSpec(note: Option<string>)
    ensures NoteField(note).Some? <==> note.Some? && !AllWhitespace(note.value)
    ensures NoteField(note).Some? ==> NoteField(note).value == Trim(note.value)
  {
    if note.Some? {
      TrimEmptyIff(note.value);
    }
  }

  /** The document `logReading` adds to `readingLogs`. */
  function NewLog(journeyId: string, currentUserId: string, currentUserName: string,
                  selectedUserIds: seq<string>, members: seq<Member>,
                  startRef: string, endRef: string, note: Option<string>, now: int): ReadingLog
  {
    ReadingLog(journeyId, currentUserId, currentUserName, selectedUserIds,
               ReadByNames(selectedUserIds, members), startRef, endRef, now,
               NoteField(note), Some(CalculateVerseCount(startRef, endRef)))
  }

  // ---------------------------------------------------------------------------
  // New verses and completions

  /** No string occurs twice. */
  predicate Distinct(s: seq<string>)
  {
    forall i, j :: 0 <= i < j < |s| ==> s[i] != s[j]
  }

  /** The verses of `allVerses`, in order, that have no completion yet. */
  function NewVersesOf(allVerses: seq<string>, completed: set<string>): seq<string>
  {
    if |allVerses| == 0 then []
    else
      var last := allVerses[|allVerses| - 1];
      NewVersesOf(allVerses[..|allVerses| - 1], completed) + (if last !in completed then [last] else [])
  }

  /** A verse is new exactly when it is in the range and has no completion. */
  lemma {:induction false} NewVersesMember(allVerses: seq<string>, completed: set<string>)
    ensures forall x :: x in NewVersesOf(allVerses, completed) <==> x in allVerses && x !in completed
    ensures |NewVersesOf(allVerses, completed)| <= |allVerses|
  {
    if |allVerses| > 0 {
      NewVersesMember(allVerses[..|allVerses| - 1], completed);
      assert allVerses == allVerses[..|allVerses| - 1] + [allVerses[|allVerses| - 1]];
    }
  }

  /** The new verses keep the range's order: selecting distributes over concatenation. */
  lemma {:induction false} NewVersesConcat(a: seq<string>, b: seq<string>, completed: set<string>)
    ensures NewVersesOf(a + b, completed) == NewVersesOf(a, completed) + NewVersesOf(b, completed)
    decreases |b|
  {
    if |b| == 0 {
      assert a + b == a;
    } else {
      assert (a + b)[..|a + b| - 1] == a + b[..|b| - 1];
      NewVersesConcat(a, b[..|b| - 1], completed);
    }
  }

  /** A range without repeats yields new verses without repeats. */
  lemma {:induction false} NewVersesDistinct(allVerses: seq<string>, completed: set<string>)
    requires Distinct(allVerses)
    ensures Distinct(NewVersesOf(allVerses, completed))
  {
    if |allVerses| > 0 {
      var init := allVerses[..|allVerses| - 1];
      NewVersesDistinct(init, completed);
      NewVersesMember(init, completed);
    }
  }

  /** Nothing is new exactly when every verse of the range already has a completion. */
  lemma NewVersesEmpty(allVerses: seq<string>, completed: set<string>)
    ensures NewVersesOf(allVerses, completed) == [] <==> forall x :: x in allVerses ==> x in completed
  {
    NewVersesMember(allVerses, completed);
    if NewVersesOf(allVerses, completed) != [] {
      assert NewVersesOf(allVerses, completed)[0] in NewVersesOf(allVerses, completed);
    }
  }

  /** The batch: one completion document per new verse. */
  function AddCompletions(completions: map<string, VerseCompletion>, verses: seq<string>,
                          completedAt: int, completedBy: seq<string>): map<string, VerseCompletion>
  {
    if |verses| == 0 then completions
    else
      var last := verses[|verses| - 1];
      AddCompletions(completions, verses[..|verses| - 1], completedAt, completedBy)[last := VerseCompletion(last, completedAt, completedBy)]
  }

  /**
   * The batch adds a completion for each given verse and leaves the others
   * alone; fresh, distinct verses grow the collection by their number.
   */
  lemma {:induction false} AddCompletionsSpec(completions: map<string, VerseCompletion>, verses: seq<string>,
                                              completedAt: int, completedBy: seq<string>)
    ensures forall v ::
      v in AddCompletions(completions, verses, completedAt, completedBy) <==> v in completions || v in verses
    ensures forall v :: v in verses ==>
      AddCompletions(completions, verses, completedAt, completedBy)[v] == VerseCompletion(v, completedAt, completedBy)
    ensures forall v :: v in completions && v !in verses ==>
      AddCompletions(completions, verses, completedAt, completedBy)[v] == completions[v]
    ensures Distinct(verses) && (forall v :: v in verses ==> v !in completions) ==>
      |AddCompletions(completions, verses, completedAt, completedBy)| == |completions| + |verses|
  {
    if |verses| > 0 {
      var init := verses[..|verses| - 1];
      AddCompletionsSpec(completions, init, completedAt, completedBy);
      assert verses == init + [verses[|verses| - 1]];
      if Distinct(verses) {
        assert verses[|verses| - 1] !in init;
      }
    }
  }

  /**
   * Idempotence: once a range has been logged, logging it again finds no new
   * verse, so it adds no completion and nothing to `versesCompleted`.
   */
  lemma RelogFindsNothingNew(completions: map<string, VerseCompletion>, allVerses: seq<string>,
                             completedAt: int, completedBy: seq<string>)
    ensures var after := AddCompletions(completions, NewVersesOf(allVerses, completions.Keys), completedAt, completedBy);
      NewVersesOf(allVerses, after.Keys) == []
  {
    var added := NewVersesOf(allVerses, completions.Keys);
    var after := AddCompletions(completions, added, completedAt, completedBy);
    NewVersesMember(allVerses, completions.Keys);
    AddCompletionsSpec(completions, added, completedAt, completedBy);
    NewVersesEmpty(allVerses, after.Keys);
  }

  /**
   * Recording the new verses of a range makes the completed verses the old
   * ones together with every verse of the range.
   */
  lemma CompletedKeys(completions: map<string, VerseCompletion>, allVerses: seq<string>,
                      completedAt: int, completedBy: seq<string>)
    ensures AddCompletions(completions, NewVersesOf(allVerses, completions.Keys), completedAt, completedBy).Keys
      == completions.Keys + Elements(allVerses)
  {
    NewVersesMember(allVerses, completions.Keys);
    AddCompletionsSpec(completions, NewVersesOf(allVerses, completions.Keys), completedAt, completedBy);
    ElementsSpec(allVerses);
  }

  /**
   * The write side agrees with the read side: when the completed verses are
   * the verses the logs cover, logging one more reading and recording its new
   * verses keeps them so.
   */
  lemma LogKeepsAgreement(completions: map<string, VerseCompletion>, logs: seq<ReadingLog>, log: ReadingLog,
                          completedAt: int, completedBy: seq<string>)
    requires completions.Keys == ReadSetOf(logs)
    ensures AddCompletions(completions, NewVersesOf(LogVerses(log), completions.Keys), completedAt, completedBy).Keys
      == ReadSetOf(logs + [log])
  {
    CompletedKeys(completions, LogVerses(log), completedAt, completedBy);
    ReadSetAppend(logs, log);
  }

  /** Completions that agree with the logs number at most `TOTAL_VERSES`. */
  lemma CompletionsBound(completions: map<string, VerseCompletion>, logs: seq<ReadingLog>)
    requires completions.Keys == ReadSetOf(logs)
    ensures |completions| <= TOTAL_VERSES
  {
    ReadSetBound(logs);
    assert |completions| == |completions.Keys|;
  }

  /** Each completion document is keyed by the verse it records. */
  predicate ValidCompletions(completions: map<string, VerseCompletion>)
  {
    forall v :: v in completions ==> completions[v].verseRef == v
  }

  /** The new verses of a range of distinct canonical references are distinct, canonical and uncompleted. */
  lemma NewVersesFresh(allVerses: seq<string>, completed: set<string>)
    requires Distinct(allVerses) && forall x :: x in allVerses ==> IsCanonicalRef(x)
    ensures Distinct(NewVersesOf(allVerses, completed))
    ensures forall v :: v in NewVersesOf(allVerses, completed) ==> v !in completed && IsCanonicalRef(v)
  {
    NewVersesDistinct(allVerses, completed);
    NewVersesMember(allVerses, completed);
  }

  /**
   * Recording distinct, uncompleted verses keeps every completion keyed by
   * its verse and adds exactly one document per verse.
   */
  lemma BatchKeepsValid(completions: map<string, VerseCompletion>, added: seq<string>,
                        completedAt: int, completedBy: seq<string>)
    requires ValidCompletions(completions)
    requires Distinct(added) && forall v :: v in added ==> v !in completions
    ensures ValidCompletions(AddCompletions(completions, added, completedAt, completedBy))
    ensures |AddCompletions(completions, added, completedAt, completedBy)| == |completions| + |added|
  {
    AddCompletionsSpec(completions, added, completedAt, completedBy);
  }

  /** The documents a batch of canonical verses adds are keyed by canonical verse texts. */
  lemma BatchAddsCanonical(completions: map<string, VerseCompletion>, added: seq<string>,
                           completedAt: int, completedBy: seq<string>)
    requires forall v :: v in added ==> IsCanonicalRef(v)
    ensures forall v :: v in AddCompletions(completions, added, completedAt, completedBy) && v !in completions ==>
      IsCanonicalRef(v)
  {
    AddCompletionsSpec(completions, added, completedAt, completedBy);
  }

  // ---------------------------------------------------------------------------
  // Personal statistics

  /** `userData.stats || { zeros }`. */
  function StatsOrDefault(stored: Option<UserStats>): UserStats
  {
    stored.GetOr(DEFAULT_STATS)
  }

  /** The read-modify-write `updatePersonalStats` does for one existing user. */
  function UpdatedStats(stored: Option<UserStats>, verseCount: int, now: int): (s: UserStats)
    ensures s.longestStreak >= s.currentStreak
    ensures s.longestStreak >= StatsOrDefault(stored).longestStreak
    ensures s.longestStreak == s.currentStreak || s.longestStreak == StatsOrDefault(stored).longestStreak
    ensures s.totalVersesRead == StatsOrDefault(stored).totalVersesRead + verseCount
    ensures s.totalReadings == StatsOrDefault(stored).totalReadings + 1
    ensures s.lastReadDate == Some(now) && s.todayDate == Some(now)
    ensures s.currentStreak
      == CalculateStreak(StatsOrDefault(stored).currentStreak, StatsOrDefault(stored).lastReadDate, now)
    ensures s.todayVersesRead == CalculateUserTodayVerses(
      StatsOrDefault(stored).todayVersesRead, StatsOrDefault(stored).todayDate, verseCount, now)
  {
    var current := StatsOrDefault(stored);
    var newStreak := CalculateStreak(current.currentStreak, current.lastReadDate, now);
    var newLongestStreak := if newStreak >= current.longestStreak then newStreak else current.longestStreak;
    var todayVerses := CalculateUserTodayVerses(current.todayVersesRead, current.todayDate, verseCount, now);
    UserStats(newStreak, newLongestStreak, current.totalVersesRead + verseCount,
              current.totalReadings + 1, Some(now), todayVerses, Some(now))
  }

  /** The user documents after the loop has visited `userIds` in order. */
  function UsersAfter(users: map<string, Option<UserStats>>, userIds: seq<string>,
                      verseCount: int, now: int): map<string, Option<UserStats>>
  {
    if |userIds| == 0 then users
    else
      var before := UsersAfter(users, userIds[..|userIds| - 1], verseCount, now);
      var userId := userIds[|userIds| - 1];
      if userId in before then before[userId := Some(UpdatedStats(before[userId], verseCount, now))]
      else before
  }

  /** No user document is created or removed. */
  lemma {:induction false} UsersAfterDomain(users: map<string, Option<UserStats>>, userIds: seq<string>,
                                            verseCount: int, now: int)
    ensures UsersAfter(users, userIds, verseCount, now).Keys == users.Keys
  {
    if |userIds| > 0 {
      UsersAfterDomain(users, userIds[..|userIds| - 1], verseCount, now);
    }
  }

  /** The last selected id updates that user's document, if stored, and no other. */
  lemma UsersAfterLast(users: map<string, Option<UserStats>>, userIds: seq<string>,
                       verseCount: int, now: int, u: string)
    requires |userIds| > 0 && u in users
    ensures var mid := UsersAfter(users, userIds[..|userIds| - 1], verseCount, now);
      u in mid && u in UsersAfter(users, userIds, verseCount, now)
      && UsersAfter(users, userIds, verseCount, now)[u]
         == if userIds[|userIds| - 1] == u then Some(UpdatedStats(mid[u], verseCount, now)) else mid[u]
  {
    UsersAfterDomain(users, userIds[..|userIds| - 1], verseCount, now);
  }

  /**
   * No user document is created or removed, users that were not selected are
   * untouched, and each stored user gains one reading and `verseCount` verses
   * per time it was selected, without its longest streak going down.
   */
  lemma {:induction false} UsersAfterSpec(users: map<string, Option<UserStats>>, userIds: seq<string>,
                                          verseCount: int, now: int, u: string)
    ensures u in UsersAfter(users, userIds, verseCount, now) <==> u in users
    ensures u in users && u !in userIds ==> UsersAfter(users, userIds, verseCount, now)[u] == users[u]
    ensures u in users ==>
      var before := StatsOrDefault(users[u]);
      var after := StatsOrDefault(UsersAfter(users, userIds, verseCount, now)[u]);
      after.totalReadings == before.totalReadings + multiset(userIds)[u]
      && after.totalVersesRead == before.totalVersesRead + multiset(userIds)[u] * verseCount
      && after.longestStreak >= before.longestStreak
  {
    UsersAfterDomain(users, userIds, verseCount, now);
    if |userIds| > 0 && u in users {
      var init := userIds[..|userIds| - 1];
      var last := userIds[|userIds| - 1];
      UsersAfterSpec(users, init, verseCount, now, u);
      UsersAfterLast(users, userIds, verseCount, now, u);
      assert userIds == init + [last];
      var m := multiset(init)[u];
      assert multiset(userIds)[u] == m + (if last == u then 1 else 0);
      if last == u {
        assert (m + 1) * verseCount == m * verseCount + verseCount;
      }
    }
  }

  /** A user selected once ends with exactly one update of its stored stats. */
  lemma UsersAfterOnce(users: map<string, Option<UserStats>>, userIds: seq<string>,
                       verseCount: int, now: int, u: string)
    requires u in users && multiset(userIds)[u] == 1
    ensures u in UsersAfter(users, userIds, verseCount, now)
    ensures UsersAfter(users, userIds, verseCount, now)[u] == Some(UpdatedStats(users[u], verseCount, now))
  {
    var k :| 0 <= k < |userIds| && userIds[k] == u;
    var prefix := userIds[..k + 1];
    var rest := userIds[k + 1..];
    assert userIds == prefix + rest;
    assert multiset(userIds) == multiset(prefix) + multiset(rest);
    assert prefix == userIds[..k] + [u];
    assert u !in userIds[..k] by {
      assert multiset(prefix)[u] == multiset(userIds[..k])[u] + 1;
    }
    assert u !in rest by {
      assert multiset(prefix)[u] >= 1;
    }
    UsersAfterSpec(users, userIds[..k], verseCount, now, u);
    assert prefix[..|prefix| - 1] == userIds[..k];
    UsersAfterSuffix(users, prefix, rest, verseCount, now, u);
  }

  /** Selecting more users that do not include `u` leaves `u` as it was. */
  lemma {:induction false} UsersAfterSuffix(users: map<string, Option<UserStats>>, a: seq<string>, b: seq<string>,
                                            verseCount: int, now: int, u: string)
    requires u !in b
    ensures u in UsersAfter(users, a, verseCount, now) ==>
      u in UsersAfter(users, a + b, verseCount, now)
      && UsersAfter(users, a + b, verseCount, now)[u] == UsersAfter(users, a, verseCount, now)[u]
    decreases |b|
  {
    if |b| == 0 {
      assert a + b == a;
    } else {
      assert (a + b)[..|a + b| - 1] == a + b[..|b| - 1];
      UsersAfterSuffix(users, a, b[..|b| - 1], verseCount, now, u);
    }
  }

  // ---------------------------------------------------------------------------
  // The caller's guard (src/components/journey/LogReadingModal.tsx)

  function InvalidRangeMessage(): string { "Please select a valid verse range" }
  function NoReaderMessage(): string { "Please select at least one person who read" }

  /** What the form does on submit. */
  datatype SubmitOutcome = Ignored | Rejected(message: string) | Logged

  /**
   * The checks of `handleSubmit` before it calls `logReading`: a signed-in
   * user, a range the picker accepts and at least one reader.
   */
  function SubmitCheck(signedIn: bool, startRef: string, endRef: string, selectedUserIds: seq<string>): SubmitOutcome
  {
    if !signedIn then Ignored
    else if ValidateVerseRange(startRef, endRef).Some? then Rejected(InvalidRangeMessage())
    else if |selectedUserIds| == 0 then Rejected(NoReaderMessage())
    else Logged
  }

  /** A submitted reading always covers at least one verse and names a reader. */
  lemma SubmitCheckSpec(signedIn: bool, startRef: string, endRef: string, selectedUserIds: seq<string>)
    ensures SubmitCheck(signedIn, startRef, endRef, selectedUserIds) == Logged <==>
      signedIn && IsProperRange(startRef, endRef) && |selectedUserIds| > 0
    ensures SubmitCheck(signedIn, startRef, endRef, selectedUserIds) == Logged ==>
      1 <= CalculateVerseCount(startRef, endRef) <= TOTAL_VERSES
      && 1 <= |ExpandedRange(startRef, endRef)| <= TOTAL_VERSES
  {
    ValidateSpec(startRef, endRef);
    VerseCountSpec(startRef, endRef);
    ExpandedRangeSpec(startRef, endRef);
  }

  // ---------------------------------------------------------------------------
  // The store

  /** The documents of one journey, and the users' documents. */
  class JourneyStore {
    const journeyId: string
    var logs: seq<ReadingLog>
    var completions: map<string, VerseCompletion>
    var stats: JourneyStats
    var users: map<string, Option<UserStats>>

    /**
     * `versesCompleted` counts the completion documents, each keyed by the
     * verse it records.
     */
    ghost predicate Counted()
      reads this
    {
      stats.versesCompleted == |completions| && ValidCompletions(completions)
    }

    /**
     * The store invariant: the counter is right, and the completed verses are
     * exactly the verses the logs cover, as the journey page computes them.
     */
    ghost predicate Valid()
      reads this
    {
      Counted() && completions.Keys == ReadSetOf(logs)
    }

    /** In every valid store, at most all 6236 verses are completed. */
    lemma VersesCompletedBound()
      requires Valid()
      ensures stats.versesCompleted <= TOTAL_VERSES
    {
      CompletionsBound(completions, logs);
    }

    /** A journey as created: no logs, no completions, counters at zero. */
    constructor(journeyId: string, users: map<string, Option<UserStats>>)
      ensures Valid()
      ensures this.journeyId == journeyId && this.users == users
      ensures logs == [] && completions == map[] && stats == JourneyStats(0, None, 0, None)
    {
      this.journeyId := journeyId;
      this.logs := [];
      this.completions := map[];
      this.stats := JourneyStats(0, None, 0, None);
      this.users := users;
    }

    /** `updatePersonalStats`: update each selected user that has a document, in order. */
    method UpdatePersonalStats(userIds: seq<string>, verseCount: int, now: int)
      modifies this`users
      ensures users == UsersAfter(old(users), userIds, verseCount, now)
    {
      var updated := users;
      var i := 0;
      while i < |userIds|
        invariant 0 <= i <= |userIds|
        invariant updated == UsersAfter(users, userIds[..i], verseCount, now)
      {
        assert userIds[..i + 1][..i] == userIds[..i];
        var userId := userIds[i];
        if userId in updated {
          updated := updated[userId := Some(UpdatedStats(updated[userId], verseCount, now))];
        }
        i := i + 1;
      }
      assert userIds[..i] == userIds;
      users := updated;
    }

    /** The `getDoc` loop: the verses of `allVerses`, in order, that have no completion. */
    method FindNewVerses(allVerses: seq<string>) returns (newVerses: seq<string>)
      ensures newVerses == NewVersesOf(allVerses, completions.Keys)
    {
      newVerses := [];
      var k := 0;
      while k < |allVerses|
        invariant 0 <= k <= |allVerses|
        invariant newVerses == NewVersesOf(allVerses[..k], completions.Keys)
      {
        assert allVerses[..k + 1][..k] == allVerses[..k];
        if allVerses[k] !in completions {
          newVerses := newVerses + [allVerses[k]];
        }
        k := k + 1;
      }
      assert allVerses[..k] == allVerses;
    }

    /**
     * Step 2 of `logReading`: expand the range and keep the verses without
     * a completion, which are distinct, canonical and not yet completed.
     */
    method NewVersesIn(startRef: string, endRef: string) returns (newVerses: seq<string>)
      ensures newVerses == NewVersesOf(ExpandedRange(startRef, endRef), completions.Keys)
      ensures Distinct(newVerses) && forall v :: v in newVerses ==> v !in completions && IsCanonicalRef(v)
    {
      var allVerses := ExpandVerseRange(startRef, endRef);
      newVerses := FindNewVerses(allVerses);
      ExpandedRangeDistinct(startRef, endRef);
      NewVersesFresh(allVerses, completions.Keys);
    }

    /** The write batch: one completion per new verse, on top of the stored ones. */
    method BuildBatch(newVerses: seq<string>, completedAt: int, completedBy: seq<string>)
      returns (batch: map<string, VerseCompletion>)
      ensures batch == AddCompletions(completions, newVerses, completedAt, completedBy)
    {
      batch := completions;
      var j := 0;
      while j < |newVerses|
        invariant 0 <= j <= |newVerses|
        invariant batch == AddCompletions(completions, newVerses[..j], completedAt, completedBy)
      {
        assert newVerses[..j + 1][..j] == newVerses[..j];
        batch := batch[newVerses[j] := VerseCompletion(newVerses[j], completedAt, completedBy)];
        j := j + 1;
      }
      assert newVerses[..j] == newVerses;
    }

    /**
     * The batch of `logReading`: when there are new verses, write one
     * completion per verse and add their number to `versesCompleted`;
     * either way stamp the activity and store today's total.
     */
    method CommitBatch(newVerses: seq<string>, now: int, readByNames: seq<string>, todayVerses: int)
      requires Counted()
      requires Distinct(newVerses) && forall v :: v in newVerses ==> v !in completions
      modifies this`completions, this`stats
      ensures Counted()
      ensures completions == AddCompletions(old(completions), newVerses, now, readByNames)
      ensures stats == JourneyStats(old(stats.versesCompleted) + |newVerses|, Some(now), todayVerses, Some(now))
    {
      BatchKeepsValid(completions, newVerses, now, readByNames);
      if |newVerses| > 0 {
        var batch := BuildBatch(newVerses, now, readByNames);
        completions := batch;
        stats := JourneyStats(stats.versesCompleted + |newVerses|, Some(now), todayVerses, Some(now));
      } else {
        stats := stats.(lastActivityAt := Some(now), versesReadToday := todayVerses, todayDate := Some(now));
      }
    }

    /**
     * `logReading`: append the log, find the verses of the range without a
     * completion, record them and count them, refresh today's total, then
     * update the readers' statistics.
     */
    method LogReading(currentUserId: string, currentUserName: string, selectedUserIds: seq<string>,
                      members: seq<Member>, startRef: string, endRef: string, note: Option<string>, now: int)
      requires Valid()
      modifies this
      ensures Valid()
      ensures logs == old(logs)
        + [NewLog(journeyId, currentUserId, currentUserName, selectedUserIds, members, startRef, endRef, note, now)]
      ensures completions == AddCompletions(old(completions),
        NewVersesOf(ExpandedRange(startRef, endRef), old(completions).Keys), now, ReadByNames(selectedUserIds, members))
      ensures stats.versesCompleted
        == old(stats.versesCompleted) + |NewVersesOf(ExpandedRange(startRef, endRef), old(completions).Keys)|
      ensures stats.lastActivityAt == Some(now) && stats.todayDate == Some(now)
      ensures stats.versesReadToday == TodayTotal(old(logs), now) + CalculateVerseCount(startRef, endRef)
      ensures users == UsersAfter(old(users), selectedUserIds, CalculateVerseCount(startRef, endRef), now)
      ensures completions.Keys == old(completions).Keys + Elements(ExpandedRange(startRef, endRef))
      ensures forall v :: v in completions && v !in old(completions) ==> IsCanonicalRef(v)
    {
      var verseCount := CalculateVerseCount(startRef, endRef);
      var readByNames := ReadByNames(selectedUserIds, members);

      // 1. the log entry
      var log := NewLog(journeyId, currentUserId, currentUserName, selectedUserIds, members, startRef, endRef, note, now);
      TodayTotalAppend(logs, log, now);
      LogKeepsAgreement(completions, logs, log, now, readByNames);
      CompletedKeys(completions, ExpandedRange(startRef, endRef), now, readByNames);
      IsTodayWindow(now, now);
      logs := logs + [log];

      // 2. the verses without a completion
      var newVerses := NewVersesIn(startRef, endRef);

      // 3. today's total, the new log included
      var todayVerses := CalculateTodayVerses(logs, now);

      // 4. the completions and the journey's counters
      BatchAddsCanonical(completions, newVerses, now, readByNames);
      CommitBatch(newVerses, now, readByNames, todayVerses);

      // 5. the readers' statistics
      UpdatePersonalStats(selectedUserIds, verseCount, now);
    }

    /** `handleSubmit`: the form's checks, then `logReading` when they pass. */
    method Submit(signedIn: bool, currentUserId: string, currentUserName: string, selectedUserIds: seq<string>,
                  members: seq<Member>, startRef: string, endRef: string, note: Option<string>, now: int)
      returns (outcome: SubmitOutcome)
      requires Valid()
      modifies this
      ensures Valid()
      ensures outcome == SubmitCheck(signedIn, startRef, endRef, selectedUserIds)
      ensures outcome != Logged ==>
        logs == old(logs) && completions == old(completions) && stats == old(stats) && users == old(users)
      ensures outcome == Logged ==>
        logs == old(logs)
          + [NewLog(journeyId, currentUserId, currentUserName, selectedUserIds, members, startRef, endRef, note, now)]
        && completions == AddCompletions(old(completions),
             NewVersesOf(ExpandedRange(startRef, endRef), old(completions).Keys), now, ReadByNames(selectedUserIds, members))
        && stats == JourneyStats(
             old(stats.versesCompleted) + |NewVersesOf(ExpandedRange(startRef, endRef), old(completions).Keys)|,
             Some(now), TodayTotal(old(logs), now) + CalculateVerseCount(startRef, endRef), Some(now))
        && users == UsersAfter(old(users), selectedUserIds, CalculateVerseCount(startRef, endRef), now)
      ensures outcome == Logged ==> 1 <= CalculateVerseCount(startRef, endRef) <= TOTAL_VERSES
      ensures outcome == Logged ==>
        completions.Keys == old(completions).Keys + Elements(ExpandedRange(startRef, endRef))
    {
      outcome := SubmitCheck(signedIn, startRef, endRef, selectedUserIds);
      SubmitCheckSpec(signedIn, startRef, endRef, selectedUserIds);
      if outcome == Logged {
        LogReading(currentUserId, currentUserName, selectedUserIds, members, startRef, endRef, note, now);
      }
    }
  }
}
