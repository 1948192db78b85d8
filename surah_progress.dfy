/**
 * The per-surah progress read model of a journey
 * (src/components/journey/SurahProgress.tsx): the set of verses read by all
 * reading logs, one progress record per surah, the status filter, the sort by
 * share read and the status counts.
 *
 * A surah's percentage `versesRead / totalVerses * 100` is not computed:
 * statuses come from the integer counts and the sort compares shares by
 * cross-multiplication, which orders the records as the percentages do.
 */
module SurahProgress {
  import opened JsText
  import opened QuranData
  import opened VerseUtils
  import opened Records

  // ---------------------------------------------------------------------------
  // The read set

  /** The strings of a sequence, as a set. */
  function Elements(s: seq<string>): set<string>
  {
    if |s| == 0 then {} else Elements(s[..|s| - 1]) + {s[|s| - 1]}
  }

  lemma {:induction false} ElementsSpec(s: seq<string>)
    ensures forall x :: x in Elements(s) <==> x in s
  {
    if |s| > 0 {
      ElementsSpec(s[..|s| - 1]);
      assert s == s[..|s| - 1] + [s[|s| - 1]];
    }
  }

  /** The union of the strings of every group. */
  function UnionOf(groups: seq<seq<string>>): set<string>
  {
    if |groups| == 0 then {} else UnionOf(groups[..|groups| - 1]) + Elements(groups[|groups| - 1])
  }

  lemma {:induction false} UnionMember(groups: seq<seq<string>>, v: string)
    ensures v in UnionOf(groups) <==> exists i :: 0 <= i < |groups| && v in groups[i]
  {
    if |groups| > 0 {
      var init := groups[..|groups| - 1];
      UnionMember(init, v);
      ElementsSpec(groups[|groups| - 1]);
      if v in UnionOf(init) {
        var i :| 0 <= i < |init| && v in init[i];
        assert groups[i] == init[i];
      }
      if exists i :: 0 <= i < |groups| && v in groups[i] {
        var i :| 0 <= i < |groups| && v in groups[i];
        if i < |init| {
          assert init[i] == groups[i];
        }
      }
    }
  }

  /** The verse strings one log covers: `expandVerseRange(log.startRef, log.endRef)`. */
  function LogVerses(log: ReadingLog): seq<string>
  {
    ExpandedRange(log.startRef, log.endRef)
  }

  /** The expansion of every log, in log order. */
  function Expansions(logs: seq<ReadingLog>): (groups: seq<seq<string>>)
    ensures |groups| == |logs|
  {
    if |logs| == 0 then [] else Expansions(logs[..|logs| - 1]) + [LogVerses(logs[|logs| - 1])]
  }

  lemma {:induction false} ExpansionsAt(logs: seq<ReadingLog>, i: int)
    requires 0 <= i < |logs|
    ensures Expansions(logs)[i] == LogVerses(logs[i])
  {
    if i < |logs| - 1 {
      ExpansionsAt(logs[..|logs| - 1], i);
    }
  }

  /** Every verse string the logs cover: the union of their expansions. */
  function ReadSetOf(logs: seq<ReadingLog>): set<string>
  {
    UnionOf(Expansions(logs))
  }

  /** The inner `forEach`: add every verse of one expansion to the set. */
  method AddVerses(readVerses: set<string>, verses: seq<string>) returns (grown: set<string>)
    ensures grown == readVerses + Elements(verses)
  {
    grown := readVerses;
    var j := 0;
    while j < |verses|
      invariant 0 <= j <= |verses|
      invariant grown == readVerses + Elements(verses[..j])
    {
      assert verses[..j + 1][..j] == verses[..j];
      grown := grown + {verses[j]};
      j := j + 1;
    }
    assert verses[..j] == verses;
  }

  /** The `forEach` that fills `readVerses` from every log's expansion. */
  method BuildReadSet(readingLogs: seq<ReadingLog>) returns (readVerses: set<string>)
    ensures readVerses == ReadSetOf(readingLogs)
  {
    ghost var groups := Expansions(readingLogs);
    readVerses := {};
    var i := 0;
    while i < |readingLogs|
      invariant 0 <= i <= |readingLogs|
      invariant readVerses == UnionOf(groups[..i])
    {
      var verses := ExpandVerseRange(readingLogs[i].startRef, readingLogs[i].endRef);
      readVerses := AddVerses(readVerses, verses);
      ExpansionsAt(readingLogs, i);
      assert groups[..i + 1][..i] == groups[..i];
      i := i + 1;
    }
    assert groups[..i] == groups;
  }

  /** A verse is read exactly when some log's expansion holds it. */
  lemma ReadSetMember(logs: seq<ReadingLog>, v: string)
    ensures v in ReadSetOf(logs) <==> exists i :: 0 <= i < |logs| && v in Expansions(logs)[i]
    ensures forall i :: 0 <= i < |logs| ==> Expansions(logs)[i] == LogVerses(logs[i])
  {
    UnionMember(Expansions(logs), v);
    forall i | 0 <= i < |logs|
      ensures Expansions(logs)[i] == LogVerses(logs[i])
    {
      ExpansionsAt(logs, i);
    }
  }

  /** The read set depends only on which logs there are, not on their order or repetition. */
  lemma ReadSetOrderFree(a: seq<ReadingLog>, b: seq<ReadingLog>)
    requires forall log :: log in a <==> log in b
    ensures ReadSetOf(a) == ReadSetOf(b)
  {
    var ga, gb := Expansions(a), Expansions(b);
    forall v | v in UnionOf(ga)
      ensures v in UnionOf(gb)
    {
      UnionMember(ga, v);
      var i :| 0 <= i < |ga| && v in ga[i];
      assert a[i] in a;
      var j :| 0 <= j < |b| && b[j] == a[i];
      ExpansionsAt(a, i);
      ExpansionsAt(b, j);
      UnionMember(gb, v);
    }
    forall v | v in UnionOf(gb)
      ensures v in UnionOf(ga)
    {
      UnionMember(gb, v);
      var j :| 0 <= j < |gb| && v in gb[j];
      assert b[j] in b;
      var i :| 0 <= i < |a| && a[i] == b[j];
      ExpansionsAt(a, i);
      ExpansionsAt(b, j);
      UnionMember(ga, v);
    }
  }

  /** Every string in the read set is the canonical text of an existing verse. */
  lemma ReadSetCanonical(logs: seq<ReadingLog>)
    ensures forall x :: x in ReadSetOf(logs) ==> IsCanonicalRef(x)
  {
    var groups := Expansions(logs);
    forall x | x in UnionOf(groups)
      ensures IsCanonicalRef(x)
    {
      UnionMember(groups, x);
      var i :| 0 <= i < |groups| && x in groups[i];
      ExpansionsAt(logs, i);
      ExpandedRangeDistinct(logs[i].startRef, logs[i].endRef);
    }
  }

  // ---------------------------------------------------------------------------
  // One record per surah

  datatype Status = Complete | InProgress | NotStarted

  /** A surah's progress as shown on the journey page. */
  datatype SurahRecord = SurahRecord(
    surahNumber: int,
    totalVerses: int,
    versesRead: int,
    status: Status)

  /** The key `${surah.number}:${verse}` of a verse of table row `i`. */
  function SurahVerseKey(i: nat, verse: int): string
    requires i < NUM_SURAHS
  {
    FormatVerseRef(VerseRef(NumberAt(i), verse))
  }

  /** How many of the verses 1..n of table row `i` are in `readVerses`. */
  function ReadUpTo(readVerses: set<string>, i: nat, n: nat): (count: nat)
    requires i < NUM_SURAHS
    ensures count <= n
  {
    if n == 0 then 0
    else ReadUpTo(readVerses, i, n - 1) + (if SurahVerseKey(i, n) in readVerses then 1 else 0)
  }

  /**
   * The status rule.  For a positive total, `percentage === 100` holds exactly
   * when every verse is read and `percentage > 0` exactly when one is.
   */
  function StatusOf(versesRead: int, totalVerses: int): Status
  {
    if versesRead == totalVerses then Complete
    else if versesRead > 0 then InProgress
    else NotStarted
  }

  function RecordOf(readVerses: set<string>, i: nat): SurahRecord
    requires i < NUM_SURAHS
  {
    var versesRead := ReadUpTo(readVerses, i, VersesAt(i));
    SurahRecord(NumberAt(i), VersesAt(i), versesRead, StatusOf(versesRead, VersesAt(i)))
  }

  /** The records of the first n table rows, in table order. */
  function ProgressUpTo(readVerses: set<string>, n: nat): (records: seq<SurahRecord>)
    requires n <= NUM_SURAHS
    ensures |records| == n
  {
    if n == 0 then [] else ProgressUpTo(readVerses, n - 1) + [RecordOf(readVerses, n - 1)]
  }

  /** `QURAN_SURAHS.map(...)`: the record of every surah, in table order. */
  function ProgressOf(readVerses: set<string>): seq<SurahRecord>
  {
    ProgressUpTo(readVerses, NUM_SURAHS)
  }

  /** The first n records are those of rows 0..n-1, in order. */
  lemma {:induction false} ProgressUpToAt(readVerses: set<string>, n: nat, i: nat)
    requires i < n <= NUM_SURAHS
    ensures ProgressUpTo(readVerses, n)[i] == RecordOf(readVerses, i)
  {
    if i < n - 1 {
      ProgressUpToAt(readVerses, n - 1, i);
    }
  }

  /** The callback of `QURAN_SURAHS.map`: count the read verses of row `i` and classify it. */
  method SurahProgressFor(readVerses: set<string>, i: nat) returns (record: SurahRecord)
    requires i < NUM_SURAHS
    ensures record == RecordOf(readVerses, i)
  {
    var versesRead := 0;
    var verse := 1;
    while verse <= VersesAt(i)
      invariant 1 <= verse <= VersesAt(i) + 1
      invariant versesRead == ReadUpTo(readVerses, i, verse - 1)
    {
      var verseRef := IntToString(NumberAt(i)) + ":" + IntToString(verse);
      if verseRef in readVerses {
        versesRead := versesRead + 1;
      }
      verse := verse + 1;
    }
    var status := if versesRead == VersesAt(i) then Complete else if versesRead > 0 then InProgress else NotStarted;
    record := SurahRecord(NumberAt(i), VersesAt(i), versesRead, status);
  }

  /** `QURAN_SURAHS.map(...)` over a read set: one record per surah in table order. */
  method ProgressFor(readVerses: set<string>) returns (progress: seq<SurahRecord>)
    ensures progress == ProgressOf(readVerses)
  {
    progress := [];
    var i := 0;
    while i < NUM_SURAHS
      invariant 0 <= i <= NUM_SURAHS
      invariant progress == ProgressUpTo(readVerses, i)
    {
      var record := SurahProgressFor(readVerses, i);
      progress := progress + [record];
      i := i + 1;
    }
  }

  /** `surahProgressData`: the read set, then one record per surah in table order. */
  method SurahProgressData(readingLogs: seq<ReadingLog>) returns (progress: seq<SurahRecord>)
    ensures progress == ProgressOf(ReadSetOf(readingLogs))
  {
    var readVerses := BuildReadSet(readingLogs);
    progress := ProgressFor(readVerses);
  }

  /** All n verses are read exactly when the count reaches n. */
  lemma {:induction false} ReadUpToAll(readVerses: set<string>, i: nat, n: nat)
    requires i < NUM_SURAHS
    ensures ReadUpTo(readVerses, i, n) == n <==> forall v :: 1 <= v <= n ==> SurahVerseKey(i, v) in readVerses
  {
    if n > 0 {
      ReadUpToAll(readVerses, i, n - 1);
    }
  }

  /** No verse is read exactly when the count is 0. */
  lemma {:induction false} ReadUpToNone(readVerses: set<string>, i: nat, n: nat)
    requires i < NUM_SURAHS
    ensures ReadUpTo(readVerses, i, n) == 0 <==> forall v :: 1 <= v <= n ==> SurahVerseKey(i, v) !in readVerses
  {
    if n > 0 {
      ReadUpToNone(readVerses, i, n - 1);
    }
  }

  /**
   * One record per surah in surah-number order, with its verse total, a
   * count within bounds, and the status that matches the count.
   */
  lemma ProgressShape(readVerses: set<string>, i: nat)
    requires i < NUM_SURAHS
    ensures |ProgressOf(readVerses)| == NUM_SURAHS
    ensures ProgressOf(readVerses)[i].surahNumber == i + 1
    ensures ProgressOf(readVerses)[i].totalVerses == VersesAt(i)
    ensures 0 <= ProgressOf(readVerses)[i].versesRead <= ProgressOf(readVerses)[i].totalVerses
    ensures ProgressOf(readVerses)[i].status == Complete
      <==> ProgressOf(readVerses)[i].versesRead == ProgressOf(readVerses)[i].totalVerses
    ensures ProgressOf(readVerses)[i].status == InProgress
      <==> 0 < ProgressOf(readVerses)[i].versesRead < ProgressOf(readVerses)[i].totalVerses
    ensures ProgressOf(readVerses)[i].status == NotStarted
      <==> ProgressOf(readVerses)[i].versesRead == 0
  {
    ProgressUpToAt(readVerses, NUM_SURAHS, i);
  }

  /**
   * A surah is complete exactly when all its verses are read, and not started
   * exactly when none is.
   */
  lemma StatusMeaning(readVerses: set<string>, i: nat)
    requires i < NUM_SURAHS
    ensures ProgressOf(readVerses)[i].status == Complete
      <==> forall v :: 1 <= v <= VersesAt(i) ==> SurahVerseKey(i, v) in readVerses
    ensures ProgressOf(readVerses)[i].status == NotStarted
      <==> forall v :: 1 <= v <= VersesAt(i) ==> SurahVerseKey(i, v) !in readVerses
  {
    ProgressUpToAt(readVerses, NUM_SURAHS, i);
    ReadUpToAll(readVerses, i, VersesAt(i));
    ReadUpToNone(readVerses, i, VersesAt(i));
  }

  // ---------------------------------------------------------------------------
  // The per-surah counts add up to the size of the read set

  /** Sum of `versesRead` over the records. */
  function SumRead(records: seq<SurahRecord>): int
  {
    if |records| == 0 then 0 else SumRead(records[..|records| - 1]) + records[|records| - 1].versesRead
  }

  /** The keys of verses 1..n of row `i` that are in `readVerses`. */
  function SurahReadKeys(readVerses: set<string>, i: nat, n: nat): set<string>
    requires i < NUM_SURAHS
  {
    if n == 0 then {}
    else SurahReadKeys(readVerses, i, n - 1) + (if SurahVerseKey(i, n) in readVerses then {SurahVerseKey(i, n)} else {})
  }

  /** Each of the row's read keys is read and names one of its first n verses. */
  lemma {:induction false} SurahReadKeysMember(readVerses: set<string>, i: nat, n: nat)
    requires i < NUM_SURAHS
    ensures forall x :: x in SurahReadKeys(readVerses, i, n) ==>
      x in readVerses && ParseVerseRef(x).Some? && ParseVerseRef(x).value.surah == i + 1
      && ParseVerseRef(x).value.verse <= n
  {
    if n > 0 {
      SurahReadKeysMember(readVerses, i, n - 1);
      ParseFormat(VerseRef(NumberAt(i), n));
    }
  }

  /** The row's read keys are as many as its count. */
  lemma {:induction false} SurahReadKeysSize(readVerses: set<string>, i: nat, n: nat)
    requires i < NUM_SURAHS
    ensures |SurahReadKeys(readVerses, i, n)| == ReadUpTo(readVerses, i, n)
  {
    if n > 0 {
      SurahReadKeysSize(readVerses, i, n - 1);
      var earlier := SurahReadKeys(readVerses, i, n - 1);
      var key := SurahVerseKey(i, n);
      if key in earlier {
        SurahReadKeysMember(readVerses, i, n - 1);
        ParseFormat(VerseRef(NumberAt(i), n));
        assert false;
      }
    }
  }

  /** The row's read keys are as many as its count, and each names one of its first n verses. */
  lemma SurahReadKeysSpec(readVerses: set<string>, i: nat, n: nat)
    requires i < NUM_SURAHS
    ensures |SurahReadKeys(readVerses, i, n)| == ReadUpTo(readVerses, i, n)
    ensures forall x :: x in SurahReadKeys(readVerses, i, n) ==>
      x in readVerses && ParseVerseRef(x).Some? && ParseVerseRef(x).value.surah == i + 1
      && ParseVerseRef(x).value.verse <= n
  {
    SurahReadKeysMember(readVerses, i, n);
    SurahReadKeysSize(readVerses, i, n);
  }

  lemma {:induction false} SurahReadKeysHas(readVerses: set<string>, i: nat, n: nat, v: int)
    requires i < NUM_SURAHS && 1 <= v <= n && SurahVerseKey(i, v) in readVerses
    ensures SurahVerseKey(i, v) in SurahReadKeys(readVerses, i, n)
  {
    if v < n {
      SurahReadKeysHas(readVerses, i, n - 1, v);
    }
  }

  /** The read keys of the rows before `k`. */
  function ReadKeysBefore(readVerses: set<string>, k: nat): set<string>
    requires k <= NUM_SURAHS
  {
    if k == 0 then {} else ReadKeysBefore(readVerses, k - 1) + SurahReadKeys(readVerses, k - 1, VersesAt(k - 1))
  }

  /** Every key of the rows before `k` parses to a surah number of at most `k`. */
  lemma {:induction false} ReadKeysBeforeRows(readVerses: set<string>, k: nat)
    requires k <= NUM_SURAHS
    ensures forall x :: x in ReadKeysBefore(readVerses, k) ==>
      ParseVerseRef(x).Some? && ParseVerseRef(x).value.surah <= k
  {
    if k > 0 {
      ReadKeysBeforeRows(readVerses, k - 1);
      SurahReadKeysSpec(readVerses, k - 1, VersesAt(k - 1));
    }
  }

  lemma SumReadStep(readVerses: set<string>, k: nat)
    requires 0 < k <= NUM_SURAHS
    ensures SumRead(ProgressUpTo(readVerses, k))
      == SumRead(ProgressUpTo(readVerses, k - 1)) + ReadUpTo(readVerses, k - 1, VersesAt(k - 1))
  {
    var p := ProgressUpTo(readVerses, k);
    assert p[..|p| - 1] == ProgressUpTo(readVerses, k - 1);
  }

  /** The keys of row `k - 1` are not among those of the rows before it. */
  lemma ReadKeysDisjoint(readVerses: set<string>, k: nat)
    requires 0 < k <= NUM_SURAHS
    ensures ReadKeysBefore(readVerses, k - 1) * SurahReadKeys(readVerses, k - 1, VersesAt(k - 1)) == {}
  {
    var earlier := ReadKeysBefore(readVerses, k - 1);
    var row := SurahReadKeys(readVerses, k - 1, VersesAt(k - 1));
    ReadKeysBeforeRows(readVerses, k - 1);
    SurahReadKeysMember(readVerses, k - 1, VersesAt(k - 1));
    forall x | x in earlier
      ensures x !in row
    {
    }
  }

  /** The keys of the rows before `k` are as many as those rows' counts together. */
  lemma {:induction false} ReadKeysBeforeSize(readVerses: set<string>, k: nat)
    requires k <= NUM_SURAHS
    ensures |ReadKeysBefore(readVerses, k)| == SumRead(ProgressUpTo(readVerses, k))
  {
    if k > 0 {
      ReadKeysBeforeSize(readVerses, k - 1);
      ReadKeysDisjoint(readVerses, k);
      SurahReadKeysSize(readVerses, k - 1, VersesAt(k - 1));
      SumReadStep(readVerses, k);
    }
  }

  lemma {:induction false} ReadKeysBeforeHas(readVerses: set<string>, k: nat, i: nat, x: string)
    requires i < k <= NUM_SURAHS && x in SurahReadKeys(readVerses, i, VersesAt(i))
    ensures x in ReadKeysBefore(readVerses, k)
  {
    if i < k - 1 {
      ReadKeysBeforeHas(readVerses, k - 1, i, x);
    }
  }

  /** A set of canonical verse texts is exactly the union of its per-surah parts. */
  lemma ReadKeysCover(readVerses: set<string>)
    requires forall x :: x in readVerses ==> IsCanonicalRef(x)
    ensures ReadKeysBefore(readVerses, NUM_SURAHS) == readVerses
  {
    forall x | x in readVerses
      ensures x in ReadKeysBefore(readVerses, NUM_SURAHS)
    {
      CanonicalParses(x);
      var r := ParseVerseRef(x).value;
      assert x == SurahVerseKey(r.surah - 1, r.verse);
      SurahReadKeysHas(readVerses, r.surah - 1, VersesAt(r.surah - 1), r.verse);
      ReadKeysBeforeHas(readVerses, NUM_SURAHS, r.surah - 1, x);
    }
    forall x | x in ReadKeysBefore(readVerses, NUM_SURAHS)
      ensures x in readVerses
    {
      ReadKeysIn(readVerses, NUM_SURAHS, x);
    }
  }

  lemma {:induction false} ReadKeysIn(readVerses: set<string>, k: nat, x: string)
    requires k <= NUM_SURAHS && x in ReadKeysBefore(readVerses, k)
    ensures x in readVerses
  {
    if x in ReadKeysBefore(readVerses, k - 1) {
      ReadKeysIn(readVerses, k - 1, x);
    } else {
      SurahReadKeysSpec(readVerses, k - 1, VersesAt(k - 1));
    }
  }

  /** The verses read per surah add up to the number of distinct verses read. */
  lemma SumReadIsReadSetSize(readingLogs: seq<ReadingLog>)
    ensures SumRead(ProgressOf(ReadSetOf(readingLogs))) == |ReadSetOf(readingLogs)|
  {
    var readVerses := ReadSetOf(readingLogs);
    ReadSetCanonical(readingLogs);
    ReadKeysBeforeSize(readVerses, NUM_SURAHS);
    ReadKeysCover(readVerses);
  }

  /** The read verses of the rows before `k` are at most the verses of those rows. */
  lemma {:induction false} SumReadBound(readVerses: set<string>, k: nat)
    requires k <= NUM_SURAHS
    ensures SumRead(ProgressUpTo(readVerses, k)) <= PrefixSum(k)
  {
    if k > 0 {
      SumReadBound(readVerses, k - 1);
      SumReadStep(readVerses, k);
    }
  }

  /** A set of canonical verse texts holds at most `TOTAL_VERSES` strings. */
  lemma CanonicalBound(readVerses: set<string>)
    requires forall x :: x in readVerses ==> IsCanonicalRef(x)
    ensures |readVerses| <= TOTAL_VERSES
  {
    ReadKeysCover(readVerses);
    ReadKeysBeforeSize(readVerses, NUM_SURAHS);
    SumReadBound(readVerses, NUM_SURAHS);
    TotalIsSum();
  }

  /** However many logs there are, they cover at most `TOTAL_VERSES` distinct verses. */
  lemma ReadSetBound(logs: seq<ReadingLog>)
    ensures |ReadSetOf(logs)| <= TOTAL_VERSES
  {
    ReadSetCanonical(logs);
    CanonicalBound(ReadSetOf(logs));
  }

  /** One more log adds the verses of its range to the read set. */
  lemma ReadSetAppend(logs: seq<ReadingLog>, log: ReadingLog)
    ensures ReadSetOf(logs + [log]) == ReadSetOf(logs) + Elements(LogVerses(log))
  {
    assert (logs + [log])[..|logs|] == logs;
  }

  // ---------------------------------------------------------------------------
  // Filter, sort and counts

  datatype FilterType = All | Only(status: Status)

  datatype SortType = ByNumber | ByPercentage

  /** `filter((s) => s.status === status)`. */
  function KeepStatus(records: seq<SurahRecord>, status: Status): seq<SurahRecord>
  {
    if |records| == 0 then []
    else
      var last := records[|records| - 1];
      KeepStatus(records[..|records| - 1], status) + (if last.status == status then [last] else [])
  }

  /** The filter keeps exactly the records with the status, and no more of them. */
  lemma {:induction false} KeepStatusSpec(records: seq<SurahRecord>, status: Status)
    ensures forall x :: x in KeepStatus(records, status) <==> x in records && x.status == status
    ensures |KeepStatus(records, status)| <= |records|
  {
    if |records| > 0 {
      KeepStatusSpec(records[..|records| - 1], status);
      assert records == records[..|records| - 1] + [records[|records| - 1]];
    }
  }

  /** Filtering keeps the order: it distributes over concatenation. */
  lemma {:induction false} KeepStatusConcat(a: seq<SurahRecord>, b: seq<SurahRecord>, status: Status)
    ensures KeepStatus(a + b, status) == KeepStatus(a, status) + KeepStatus(b, status)
    decreases |b|
  {
    if |b| == 0 {
      assert a + b == a;
    } else {
      assert (a + b)[..|a + b| - 1] == a + b[..|b| - 1];
      KeepStatusConcat(a, b[..|b| - 1], status);
    }
  }

  /** Surah numbers strictly increase along the sequence. */
  predicate AscendingNumbers(records: seq<SurahRecord>)
  {
    forall i, j :: 0 <= i < j < |records| ==> records[i].surahNumber < records[j].surahNumber
  }

  lemma {:induction false} KeepStatusAscending(records: seq<SurahRecord>, status: Status)
    requires AscendingNumbers(records)
    ensures AscendingNumbers(KeepStatus(records, status))
  {
    if |records| > 0 {
      var init := records[..|records| - 1];
      KeepStatusAscending(init, status);
      KeepStatusSpec(init, status);
    }
  }

  /** `a` has read a larger share of its surah than `b` has of its own. */
  predicate HigherShare(a: SurahRecord, b: SurahRecord)
  {
    a.versesRead * b.totalVerses > b.versesRead * a.totalVerses
  }

  predicate SameShare(a: SurahRecord, b: SurahRecord)
  {
    a.versesRead * b.totalVerses == b.versesRead * a.totalVerses
  }

  /**
   * Insertion of `x` before the first record whose share is not higher:
   * the step of a stable sort by share, highest first.
   */
  function InsertByShare(x: SurahRecord, sorted: seq<SurahRecord>): seq<SurahRecord>
  {
    if |sorted| == 0 then [x]
    else if HigherShare(sorted[0], x) then [sorted[0]] + InsertByShare(x, sorted[1..])
    else [x] + sorted
  }

  /** `sort((a, b) => b.percentage - a.percentage)`, a stable sort. */
  function SortByShare(records: seq<SurahRecord>): seq<SurahRecord>
  {
    if |records| == 0 then [] else InsertByShare(records[0], SortByShare(records[1..]))
  }

  /**
   * Neighbours are in non-increasing order of share, and neighbours with the
   * same share are in surah-number order.
   */
  predicate SortedByShare(records: seq<SurahRecord>)
  {
    forall k :: 0 <= k < |records| - 1 ==>
      HigherShare(records[k], records[k + 1])
      || (SameShare(records[k], records[k + 1]) && records[k].surahNumber < records[k + 1].surahNumber)
  }

  lemma {:induction false} InsertByShareSpec(x: SurahRecord, sorted: seq<SurahRecord>)
    requires SortedByShare(sorted)
    requires forall y :: y in sorted ==> x.surahNumber < y.surahNumber
    ensures multiset(InsertByShare(x, sorted)) == multiset(sorted) + multiset{x}
    ensures SortedByShare(InsertByShare(x, sorted))
    ensures InsertByShare(x, sorted)[0] == x || InsertByShare(x, sorted)[0] == sorted[0]
  {
    if |sorted| > 0 && HigherShare(sorted[0], x) {
      assert sorted == [sorted[0]] + sorted[1..];
      InsertByShareSpec(x, sorted[1..]);
    }
  }

  /** Sorting yields a permutation in non-increasing share order, ties by surah number. */
  lemma {:induction false} SortByShareSpec(records: seq<SurahRecord>)
    requires AscendingNumbers(records)
    ensures multiset(SortByShare(records)) == multiset(records)
    ensures SortedByShare(SortByShare(records))
  {
    if |records| > 0 {
      assert records == [records[0]] + records[1..];
      SortByShareSpec(records[1..]);
      forall y | y in SortByShare(records[1..])
        ensures records[0].surahNumber < y.surahNumber
      {
        assert y in multiset(records[1..]);
      }
      InsertByShareSpec(records[0], SortByShare(records[1..]));
    }
  }

  /** `filteredAndSorted`: the filter, then the sort when asked for. */
  function FilteredAndSorted(progress: seq<SurahRecord>, filter: FilterType, sort: SortType): seq<SurahRecord>
  {
    var result := if filter.All? then progress else KeepStatus(progress, filter.status);
    if sort == ByPercentage then SortByShare(result) else result
  }

  lemma ProgressAscending(readVerses: set<string>)
    ensures AscendingNumbers(ProgressOf(readVerses))
  {
    var progress := ProgressOf(readVerses);
    forall i, j | 0 <= i < j < |progress|
      ensures progress[i].surahNumber < progress[j].surahNumber
    {
      ProgressUpToAt(readVerses, NUM_SURAHS, i);
      ProgressUpToAt(readVerses, NUM_SURAHS, j);
    }
  }

  /**
   * The displayed list holds exactly the records that pass the filter, each
   * once; in surah order when sorted by number, and by share with ties in
   * surah order when sorted by percentage.
   */
  lemma FilteredAndSortedSpec(readVerses: set<string>, filter: FilterType, sort: SortType)
    ensures var progress := ProgressOf(readVerses);
      var kept := if filter.All? then progress else KeepStatus(progress, filter.status);
      multiset(FilteredAndSorted(progress, filter, sort)) == multiset(kept)
    ensures filter.All? && sort == ByNumber ==>
      FilteredAndSorted(ProgressOf(readVerses), filter, sort) == ProgressOf(readVerses)
    ensures forall x :: x in FilteredAndSorted(ProgressOf(readVerses), filter, sort) <==>
      x in ProgressOf(readVerses) && (filter.All? || x.status == filter.status)
    ensures sort == ByNumber ==> AscendingNumbers(FilteredAndSorted(ProgressOf(readVerses), filter, sort))
    ensures sort == ByPercentage ==> SortedByShare(FilteredAndSorted(ProgressOf(readVerses), filter, sort))
  {
    var progress := ProgressOf(readVerses);
    ProgressAscending(readVerses);
    var kept := if filter.All? then progress else KeepStatus(progress, filter.status);
    if filter.Only? {
      KeepStatusSpec(progress, filter.status);
      KeepStatusAscending(progress, filter.status);
    }
    if sort == ByPercentage {
      SortByShareSpec(kept);
      forall x ensures x in SortByShare(kept) <==> x in kept {
        assert x in SortByShare(kept) <==> x in multiset(SortByShare(kept));
      }
    }
  }

  /** `stats`: how many records are complete, in progress and not started. */
  function StatusCounts(progress: seq<SurahRecord>): (int, int, int)
  {
    (|KeepStatus(progress, Complete)|, |KeepStatus(progress, InProgress)|, |KeepStatus(progress, NotStarted)|)
  }

  /** The three counts share out all the records. */
  lemma {:induction false} StatusCountsSum(progress: seq<SurahRecord>)
    ensures StatusCounts(progress).0 + StatusCounts(progress).1 + StatusCounts(progress).2 == |progress|
  {
    if |progress| > 0 {
      StatusCountsSum(progress[..|progress| - 1]);
    }
  }

  /** Over the progress data, the counts share out the 114 surahs. */
  lemma StatusCountsTotal(readVerses: set<string>)
    ensures var c := StatusCounts(ProgressOf(readVerses)); c.0 + c.1 + c.2 == NUM_SURAHS
  {
    StatusCountsSum(ProgressOf(readVerses));
  }
}
