/**
 * The verse-reference algebra: `"surah:verse"` strings, `{surah, verse}`
 * records, and the 1-based global verse index that numbers every verse of
 * the Quran from 1 to 6236 in reading order.
 */
module VerseUtils {
  import opened Wrappers
  import opened JsText
  import opened QuranData

  /** `{ surah, verse }`; any integers, as `parseVerseRef` accepts signs. */
  datatype VerseRef = VerseRef(surah: int, verse: int)

  /** `{ start, end }` with both ends inclusive. */
  datatype VerseRange = VerseRange(start: VerseRef, end: VerseRef)

  /** A reference that names a verse that exists. */
  predicate IsValidRef(r: VerseRef)
  {
    1 <= r.surah <= NUM_SURAHS && 1 <= r.verse <= VersesAt(r.surah - 1)
  }

  /** Reading order on references: by surah, then by verse. */
  predicate RefBefore(a: VerseRef, b: VerseRef)
  {
    a.surah < b.surah || (a.surah == b.surah && a.verse < b.verse)
  }

  // ---------------------------------------------------------------------------
  // Parsing and formatting

  /**
   * `parseVerseRef`: split on ':', demand exactly two pieces, and read each
   * with `parseInt(_, 10)`; any NaN gives `None`.
   */
  function ParseVerseRef(ref: string): (r: Option<VerseRef>)
  {
    var parts := Split(ref);
    if |parts| != 2 then None
    else
      match (ParseInt(parts[0]), ParseInt(parts[1]))
      case (Some(surah), Some(verse)) => Some(VerseRef(surah, verse))
      case _ => None
  }

  /** `formatVerseRef`: `${surah}:${verse}`. */
  function FormatVerseRef(r: VerseRef): string
  {
    IntToString(r.surah) + ":" + IntToString(r.verse)
  }

  /** A string parses only if it holds exactly one ':'. */
  lemma ParseNeedsOneColon(ref: string)
    requires ParseVerseRef(ref).Some?
    ensures Colons(ref) == 1
  {
    SplitLength(ref);
  }

  /** Every reference, signs included, survives formatting and parsing. */
  lemma ParseFormat(r: VerseRef)
    ensures ParseVerseRef(FormatVerseRef(r)) == Some(r)
  {
    var a := IntToString(r.surah);
    var b := IntToString(r.verse);
    IntToStringShape(r.surah);
    IntToStringShape(r.verse);
    SplitCons(a, b);
    SplitNoColon(b);
    ParseIntToString(r.surah);
    ParseIntToString(r.verse);
  }

  /** Distinct references have distinct strings. */
  lemma FormatInjective(a: VerseRef, b: VerseRef)
    requires FormatVerseRef(a) == FormatVerseRef(b)
    ensures a == b
  {
    ParseFormat(a);
    ParseFormat(b);
  }

  /**
   * `isValidVerseRef`: the string parses, the surah number is 1..114, the
   * table row with that number exists and the verse lies within it.
   */
  function IsValidVerseRef(ref: string): bool
  {
    match ParseVerseRef(ref)
    case None => false
    case Some(p) =>
      if p.surah < 1 || p.surah > 114 then false
      else
        FindSurahSpec(p.surah);
        match FindSurah(p.surah)
        case None => false
        case Some(row) => p.verse >= 1 && p.verse <= VersesAt(row)
  }

  /** A string is a valid reference exactly when it parses to a reference that names an existing verse. */
  lemma IsValidVerseRefSpec(ref: string)
    ensures IsValidVerseRef(ref) <==> ParseVerseRef(ref).Some? && IsValidRef(ParseVerseRef(ref).value)
  {
    if ParseVerseRef(ref).Some? {
      FindSurahSpec(ParseVerseRef(ref).value.surah);
    }
  }

  /** A string in canonical form: the rendering of a reference that names an existing verse. */
  ghost predicate IsCanonicalRef(s: string)
  {
    exists r :: IsValidRef(r) && s == FormatVerseRef(r)
  }

  lemma CanonicalOfValid(r: VerseRef)
    requires IsValidRef(r)
    ensures IsCanonicalRef(FormatVerseRef(r)) && IsValidVerseRef(FormatVerseRef(r))
  {
    ParseFormat(r);
    IsValidVerseRefSpec(FormatVerseRef(r));
  }

  /** A canonical string parses back to the valid reference it renders. */
  lemma CanonicalParses(s: string)
    requires IsCanonicalRef(s)
    ensures ParseVerseRef(s).Some? && IsValidRef(ParseVerseRef(s).value)
    ensures s == FormatVerseRef(ParseVerseRef(s).value)
  {
    var r :| IsValidRef(r) && s == FormatVerseRef(r);
    ParseFormat(r);
  }

  // ---------------------------------------------------------------------------
  // Global verse index

  /**
   * `getGlobalVerseId` as a value: the verses of all earlier surahs plus the
   * verse number.  A surah number of 0 or less adds no earlier verses; one
   * above 115 would read past the table, which the source does not survive.
   */
  function GlobalId(r: VerseRef): int
    requires r.surah <= NUM_SURAHS + 1
  {
    PrefixSum(if r.surah >= 1 then r.surah - 1 else 0) + r.verse
  }

  /** `getGlobalVerseId`: sums the verse counts of the surahs before `ref.surah`. */
  method GetGlobalVerseId(ref: VerseRef) returns (id: int)
    requires ref.surah <= NUM_SURAHS + 1
    ensures id == GlobalId(ref)
  {
    id := 0;
    var i: nat := 0;
    while i < ref.surah - 1
      invariant i == 0 || i <= ref.surah - 1
      invariant id == PrefixSum(i)
    {
      id := id + VersesAt(i);
      i := i + 1;
    }
    id := id + ref.verse;
  }

  /** Every valid reference has an index in 1..6236. */
  lemma GlobalIdBounds(r: VerseRef)
    requires IsValidRef(r)
    ensures 1 <= GlobalId(r) <= TOTAL_VERSES
  {
    GlobalIdInSurah(r);
    PrefixSumGrows(r.surah, NUM_SURAHS);
    TotalIsSum();
  }

  /** The index of a valid reference lies within its surah's block of indices. */
  lemma GlobalIdInSurah(r: VerseRef)
    requires IsValidRef(r)
    ensures PrefixSum(r.surah - 1) < GlobalId(r) <= PrefixSum(r.surah)
  {
  }

  /** A reference before another on valid references has the smaller index. */
  lemma GlobalIdBefore(a: VerseRef, b: VerseRef)
    requires IsValidRef(a) && IsValidRef(b) && RefBefore(a, b)
    ensures GlobalId(a) < GlobalId(b)
  {
    if a.surah < b.surah {
      GlobalIdInSurah(a);
      GlobalIdInSurah(b);
      PrefixSumGrows(a.surah, b.surah - 1);
    }
  }

  /** On valid references the index follows reading order, in both directions. */
  lemma GlobalIdOrder(a: VerseRef, b: VerseRef)
    requires IsValidRef(a) && IsValidRef(b)
    ensures RefBefore(a, b) <==> GlobalId(a) < GlobalId(b)
  {
    if RefBefore(a, b) {
      GlobalIdBefore(a, b);
    } else if RefBefore(b, a) {
      GlobalIdBefore(b, a);
    } else {
      assert a == b;
    }
  }

  /** Distinct valid references have distinct indices. */
  lemma GlobalIdInjective(a: VerseRef, b: VerseRef)
    requires IsValidRef(a) && IsValidRef(b)
    requires GlobalId(a) == GlobalId(b)
    ensures a == b
  {
    GlobalIdOrder(a, b);
    GlobalIdOrder(b, a);
  }

  /**
   * The walk of `getVerseFromGlobalId`: while `remaining` exceeds the
   * current surah's verse count, subtract it and move on.
   */
  function Locate(remaining: int, surahIndex: nat): VerseRef
    requires surahIndex < NUM_SURAHS
    requires remaining <= SuffixSum(surahIndex)
    decreases NUM_SURAHS - surahIndex
  {
    if remaining > VersesAt(surahIndex) then
      assert SuffixSum(surahIndex + 1) > 0;
      Locate(remaining - VersesAt(surahIndex), surahIndex + 1)
    else VerseRef(surahIndex + 1, remaining)
  }

  /** `getVerseFromGlobalId` as a value. */
  function FromGlobalId(globalId: int): Option<VerseRef>
  {
    if globalId < 1 || globalId > TOTAL_VERSES then None
    else
      PrefixSuffix(0);
      Some(Locate(globalId, 0))
  }

  /** `getVerseFromGlobalId`: `null` outside 1..6236, otherwise the walk over the table. */
  method GetVerseFromGlobalId(globalId: int) returns (r: Option<VerseRef>)
    ensures r == FromGlobalId(globalId)
  {
    if globalId < 1 || globalId > TOTAL_VERSES {
      return None;
    }
    PrefixSuffix(0);
    var remaining := globalId;
    var surahIndex: nat := 0;
    while remaining > VersesAt(surahIndex)
      invariant surahIndex < NUM_SURAHS
      invariant remaining <= SuffixSum(surahIndex)
      invariant Locate(remaining, surahIndex) == Locate(globalId, 0)
      decreases NUM_SURAHS - surahIndex
    {
      remaining := remaining - VersesAt(surahIndex);
      surahIndex := surahIndex + 1;
    }
    return Some(VerseRef(NumberAt(surahIndex), remaining));
  }

  lemma {:induction false} LocateSpec(remaining: int, surahIndex: nat)
    requires surahIndex < NUM_SURAHS
    requires 1 <= remaining <= SuffixSum(surahIndex)
    ensures IsValidRef(Locate(remaining, surahIndex))
    ensures GlobalId(Locate(remaining, surahIndex)) == PrefixSum(surahIndex) + remaining
    decreases NUM_SURAHS - surahIndex
  {
    if remaining > VersesAt(surahIndex) {
      LocateSpec(remaining - VersesAt(surahIndex), surahIndex + 1);
    }
  }

  /**
   * `getVerseFromGlobalId` answers exactly for 1..6236, and then with the
   * valid reference whose index is the given one.
   */
  lemma FromGlobalIdSpec(globalId: int)
    ensures FromGlobalId(globalId).Some? <==> 1 <= globalId <= TOTAL_VERSES
    ensures FromGlobalId(globalId).Some? ==>
      IsValidRef(FromGlobalId(globalId).value) && GlobalId(FromGlobalId(globalId).value) == globalId
  {
    if 1 <= globalId <= TOTAL_VERSES {
      PrefixSuffix(0);
      LocateSpec(globalId, 0);
    }
  }

  /** Index then reference gives back every valid reference. */
  lemma GlobalIdRoundTrip(r: VerseRef)
    requires IsValidRef(r)
    ensures FromGlobalId(GlobalId(r)) == Some(r)
  {
    GlobalIdBounds(r);
    FromGlobalIdSpec(GlobalId(r));
    GlobalIdInjective(FromGlobalId(GlobalId(r)).value, r);
  }

  /** The valid reference with index `globalId`. */
  function VerseAtId(globalId: int): (r: VerseRef)
    requires 1 <= globalId <= TOTAL_VERSES
    ensures IsValidRef(r) && GlobalId(r) == globalId
  {
    FromGlobalIdSpec(globalId);
    FromGlobalId(globalId).value
  }

  // ---------------------------------------------------------------------------
  // Ranges

  /** The pushes of `expandVerseRange`'s loop for the indices lo..hi. */
  function RefsBetween(lo: int, hi: int): seq<string>
    decreases hi - lo
  {
    if lo > hi then []
    else
      RefsBetween(lo, hi - 1) + match FromGlobalId(hi) {
        case Some(r) => [FormatVerseRef(r)]
        case None => []
      }
  }

  /** `expandVerseRange` as a value. */
  function ExpandedRange(startRef: string, endRef: string): seq<string>
  {
    var start := ParseVerseRef(startRef);
    var end := ParseVerseRef(endRef);
    if start.None? || end.None? then []
    else if !IsValidVerseRef(startRef) || !IsValidVerseRef(endRef) then []
    else if GlobalId(start.value) > GlobalId(end.value) then []
    else RefsBetween(GlobalId(start.value), GlobalId(end.value))
  }

  /**
   * `expandVerseRange`: every reference from start to end in reading order,
   * or nothing when an end does not parse, is not a verse, or start is after end.
   */
  method ExpandVerseRange(startRef: string, endRef: string) returns (verses: seq<string>)
    ensures verses == ExpandedRange(startRef, endRef)
  {
    var start := ParseVerseRef(startRef);
    var end := ParseVerseRef(endRef);
    if start.None? || end.None? {
      return [];
    }
    if !IsValidVerseRef(startRef) || !IsValidVerseRef(endRef) {
      return [];
    }
    var startGlobalId := GetGlobalVerseId(start.value);
    var endGlobalId := GetGlobalVerseId(end.value);
    if startGlobalId > endGlobalId {
      return [];
    }
    verses := CollectRefs(startGlobalId, endGlobalId);
  }

  /** The loop of `expandVerseRange`: the reference of every index from lo to hi that has one. */
  method CollectRefs(lo: int, hi: int) returns (verses: seq<string>)
    requires lo <= hi
    ensures verses == RefsBetween(lo, hi)
  {
    verses := [];
    var id := lo;
    while id <= hi
      invariant lo <= id <= hi + 1
      invariant verses == RefsBetween(lo, id - 1)
    {
      var ref := GetVerseFromGlobalId(id);
      if ref.Some? {
        verses := verses + [FormatVerseRef(ref.value)];
      }
      assert verses == RefsBetween(lo, id);
      id := id + 1;
    }
  }

  /** Inside 1..6236 the loop pushes exactly one reference per index. */
  lemma {:induction false} RefsBetweenLength(lo: int, hi: int)
    requires 1 <= lo && hi <= TOTAL_VERSES
    ensures |RefsBetween(lo, hi)| == if lo <= hi then hi - lo + 1 else 0
    decreases hi - lo
  {
    if lo <= hi {
      RefsBetweenLength(lo, hi - 1);
      FromGlobalIdSpec(hi);
    }
  }

  /** The reference pushed k-th is the one with index lo + k. */
  lemma {:induction false} RefsBetweenAt(lo: int, hi: int, k: int)
    requires 1 <= lo && hi <= TOTAL_VERSES && 0 <= k <= hi - lo
    ensures |RefsBetween(lo, hi)| == hi - lo + 1
    ensures RefsBetween(lo, hi)[k] == FormatVerseRef(VerseAtId(lo + k))
    decreases hi - lo
  {
    RefsBetweenLength(lo, hi);
    RefsBetweenLength(lo, hi - 1);
    FromGlobalIdSpec(hi);
    if k < hi - lo {
      RefsBetweenAt(lo, hi - 1, k);
    }
  }

  /** `calculateVerseCount`: `end - start + 1` on global indices, 0 for anything invalid or inverted. */
  function CalculateVerseCount(startRef: string, endRef: string): int
  {
    var start := ParseVerseRef(startRef);
    var end := ParseVerseRef(endRef);
    if start.None? || end.None? then 0
    else if !IsValidVerseRef(startRef) || !IsValidVerseRef(endRef) then 0
    else if GlobalId(start.value) > GlobalId(end.value) then 0
    else GlobalId(end.value) - GlobalId(start.value) + 1
  }

  /** Both ends valid and in reading order. */
  predicate IsProperRange(startRef: string, endRef: string)
  {
    IsValidVerseRef(startRef) && IsValidVerseRef(endRef)
    && GlobalId(ParseVerseRef(startRef).value) <= GlobalId(ParseVerseRef(endRef).value)
  }

  /** The count is 1..6236 for a proper range and 0 otherwise. */
  lemma VerseCountSpec(startRef: string, endRef: string)
    ensures IsProperRange(startRef, endRef) ==> 1 <= CalculateVerseCount(startRef, endRef) <= TOTAL_VERSES
    ensures !IsProperRange(startRef, endRef) ==> CalculateVerseCount(startRef, endRef) == 0
  {
    if IsProperRange(startRef, endRef) {
      IsValidVerseRefSpec(startRef);
      IsValidVerseRefSpec(endRef);
      GlobalIdBounds(ParseVerseRef(startRef).value);
      GlobalIdBounds(ParseVerseRef(endRef).value);
    }
  }

  /** A valid reference taken as a range of its own holds one verse. */
  lemma VerseCountSingle(ref: string)
    requires IsValidVerseRef(ref)
    ensures CalculateVerseCount(ref, ref) == 1
  {
  }

  /**
   * The expansion has as many references as the count says, and they are the
   * canonical references of the consecutive indices from start to end.
   */
  lemma ExpandedRangeSpec(startRef: string, endRef: string)
    ensures |ExpandedRange(startRef, endRef)| == CalculateVerseCount(startRef, endRef)
    ensures IsProperRange(startRef, endRef) ==>
      forall k :: 0 <= k < |ExpandedRange(startRef, endRef)| ==>
        IsCanonicalRef(ExpandedRange(startRef, endRef)[k])
        && ParseVerseRef(ExpandedRange(startRef, endRef)[k]).Some?
        && IsValidRef(ParseVerseRef(ExpandedRange(startRef, endRef)[k]).value)
        && GlobalId(ParseVerseRef(ExpandedRange(startRef, endRef)[k]).value)
           == GlobalId(ParseVerseRef(startRef).value) + k
  {
    if IsProperRange(startRef, endRef) {
      var a := GlobalId(ParseVerseRef(startRef).value);
      var b := GlobalId(ParseVerseRef(endRef).value);
      IsValidVerseRefSpec(startRef);
      IsValidVerseRefSpec(endRef);
      GlobalIdBounds(ParseVerseRef(startRef).value);
      GlobalIdBounds(ParseVerseRef(endRef).value);
      RefsBetweenLength(a, b);
      var xs := ExpandedRange(startRef, endRef);
      forall k | 0 <= k < |xs|
        ensures IsCanonicalRef(xs[k]) && ParseVerseRef(xs[k]).Some? && IsValidRef(ParseVerseRef(xs[k]).value)
          && GlobalId(ParseVerseRef(xs[k]).value) == a + k
      {
        RefsBetweenAt(a, b, k);
        CanonicalOfValid(VerseAtId(a + k));
        ParseFormat(VerseAtId(a + k));
      }
    }
  }

  /** Every reference of an expansion is canonical, and no reference appears twice. */
  lemma ExpandedRangeDistinct(startRef: string, endRef: string)
    ensures forall x :: x in ExpandedRange(startRef, endRef) ==> IsCanonicalRef(x)
    ensures forall i, j :: 0 <= i < j < |ExpandedRange(startRef, endRef)| ==>
      ExpandedRange(startRef, endRef)[i] != ExpandedRange(startRef, endRef)[j]
  {
    ExpandedRangeSpec(startRef, endRef);
    VerseCountSpec(startRef, endRef);
  }

  // ---------------------------------------------------------------------------
  // Validation and display

  function RequiredMessage(): string { "Both start and end references are required" }
  function InvalidStartMessage(): string { "Invalid start verse reference" }
  function InvalidEndMessage(): string { "Invalid end verse reference" }
  function ParseFailedMessage(): string { "Failed to parse verse references" }
  function OrderMessage(): string { "Start verse must come before or equal to end verse" }

  /** `validateVerseRange`: the first complaint that applies, or `None` for a usable range. */
  function ValidateVerseRange(startRef: string, endRef: string): Option<string>
  {
    if startRef == "" || endRef == "" then Some(RequiredMessage())
    else if !IsValidVerseRef(startRef) then Some(InvalidStartMessage())
    else if !IsValidVerseRef(endRef) then Some(InvalidEndMessage())
    else
      var start := ParseVerseRef(startRef);
      var end := ParseVerseRef(endRef);
      if start.None? || end.None? then Some(ParseFailedMessage())
      else if GlobalId(start.value) > GlobalId(end.value) then Some(OrderMessage())
      else None
  }

  /**
   * A range passes validation exactly when it counts at least one verse, and
   * the parse-failure message can never be produced.
   */
  lemma ValidateSpec(startRef: string, endRef: string)
    ensures ValidateVerseRange(startRef, endRef).None? <==> IsProperRange(startRef, endRef)
    ensures ValidateVerseRange(startRef, endRef).None? <==> CalculateVerseCount(startRef, endRef) > 0
    ensures ValidateVerseRange(startRef, endRef) != Some(ParseFailedMessage())
  {
    ValidateAcceptsProper(startRef, endRef);
    VerseCountSpec(startRef, endRef);
  }

  /** Validation passes exactly on proper ranges; a valid reference always parses. */
  lemma ValidateAcceptsProper(startRef: string, endRef: string)
    ensures ValidateVerseRange(startRef, endRef).None? <==> IsProperRange(startRef, endRef)
    ensures ValidateVerseRange(startRef, endRef) != Some(ParseFailedMessage())
  {
    EmptyRefInvalid();
    if IsValidVerseRef(startRef) && IsValidVerseRef(endRef) {
      assert startRef != "" && endRef != "";
      assert ParseVerseRef(startRef).Some? && ParseVerseRef(endRef).Some?;
    }
  }

  /** The empty string is not a verse reference. */
  lemma EmptyRefInvalid()
    ensures !IsValidVerseRef("")
  {
    assert Split("") == [""];
  }

  /** `QURAN_SURAHS.find((s) => s.number === n)?.name`. */
  function SurahName(n: int): (name: Option<string>)
    ensures name == if 1 <= n <= NUM_SURAHS then Some(NameAt(n - 1)) else None
  {
    var found := FindSurah(n);
    FindSurahSpec(n);
    if found.Some? then
      assert found.value == n - 1;
      Some(NameAt(found.value))
    else None
  }

  /** `getSurahName`: the name of the table row whose number is the parsed surah. */
  function GetSurahName(ref: string): (name: Option<string>)
    ensures name.Some? <==> ParseVerseRef(ref).Some? && 1 <= ParseVerseRef(ref).value.surah <= NUM_SURAHS
    ensures name.Some? ==> name.value == NameAt(ParseVerseRef(ref).value.surah - 1)
  {
    var parsed := ParseVerseRef(ref);
    if parsed.None? then None else SurahName(parsed.value.surah)
  }

  /** How a template literal renders `string | null`. */
  function TemplateText(s: Option<string>): string
  {
    match s
    case Some(v) => v
    case None => "null"
  }

  /**
   * `formatVerseRange`: "name v", "name v1-v2" within one surah, or
   * "name1 v1 to name2 v2" across surahs; "" if either end does not parse.
   */
  function FormatVerseRange(startRef: string, endRef: string): string
  {
    var start := ParseVerseRef(startRef);
    var end := ParseVerseRef(endRef);
    if start.None? || end.None? then ""
    else if start.value.surah == end.value.surah then
      var surahName := TemplateText(GetSurahName(startRef));
      if start.value.verse == end.value.verse then surahName + " " + IntToString(start.value.verse)
      else surahName + " " + IntToString(start.value.verse) + "-" + IntToString(end.value.verse)
    else
      TemplateText(GetSurahName(startRef)) + " " + IntToString(start.value.verse) + " to "
      + TemplateText(GetSurahName(endRef)) + " " + IntToString(end.value.verse)
  }

  /** The display text is empty exactly when an end does not parse. */
  lemma FormatVerseRangeEmpty(startRef: string, endRef: string)
    ensures FormatVerseRange(startRef, endRef) == "" <==>
      ParseVerseRef(startRef).None? || ParseVerseRef(endRef).None?
  {
    var s := FormatVerseRange(startRef, endRef);
    if ParseVerseRef(startRef).Some? && ParseVerseRef(endRef).Some? {
      assert |s| > 0;
    }
  }

  /** The name shown for a canonical reference is its surah's name in the table. */
  lemma SurahNameOfRef(r: VerseRef)
    ensures 1 <= r.surah <= NUM_SURAHS ==> GetSurahName(FormatVerseRef(r)) == Some(NameAt(r.surah - 1))
    ensures !(1 <= r.surah <= NUM_SURAHS) ==> GetSurahName(FormatVerseRef(r)) == None
  {
    ParseFormat(r);
  }

  /** How `formatVerseRange` lays out two formatted references, in terms of the name lookups. */
  lemma FormatVerseRangeLayout(a: VerseRef, b: VerseRef)
    ensures a == b ==>
      FormatVerseRange(FormatVerseRef(a), FormatVerseRef(b))
        == TemplateText(GetSurahName(FormatVerseRef(a))) + " " + IntToString(a.verse)
    ensures a.surah == b.surah && a.verse != b.verse ==>
      FormatVerseRange(FormatVerseRef(a), FormatVerseRef(b))
        == TemplateText(GetSurahName(FormatVerseRef(a))) + " " + IntToString(a.verse) + "-" + IntToString(b.verse)
    ensures a.surah != b.surah ==>
      FormatVerseRange(FormatVerseRef(a), FormatVerseRef(b))
        == TemplateText(GetSurahName(FormatVerseRef(a))) + " " + IntToString(a.verse) + " to "
           + TemplateText(GetSurahName(FormatVerseRef(b))) + " " + IntToString(b.verse)
  {
    ParseFormat(a);
    ParseFormat(b);
  }

  /** One verse renders as "name verse". */
  lemma FormatSingleVerse(r: VerseRef)
    requires IsValidRef(r)
    ensures FormatVerseRange(FormatVerseRef(r), FormatVerseRef(r)) == NameAt(r.surah - 1) + " " + IntToString(r.verse)
  {
    FormatVerseRangeLayout(r, r);
    SurahNameOfRef(r);
  }

  /** Several verses of one surah render as "name first-last". */
  lemma FormatWithinSurah(a: VerseRef, b: VerseRef)
    requires IsValidRef(a) && IsValidRef(b) && a.surah == b.surah && a.verse != b.verse
    ensures FormatVerseRange(FormatVerseRef(a), FormatVerseRef(b))
      == NameAt(a.surah - 1) + " " + IntToString(a.verse) + "-" + IntToString(b.verse)
  {
    FormatVerseRangeLayout(a, b);
    SurahNameOfRef(a);
  }

  /** A range across surahs renders as "name1 verse1 to name2 verse2". */
  lemma FormatAcrossSurahs(a: VerseRef, b: VerseRef)
    requires IsValidRef(a) && IsValidRef(b) && a.surah != b.surah
    ensures FormatVerseRange(FormatVerseRef(a), FormatVerseRef(b))
      == NameAt(a.surah - 1) + " " + IntToString(a.verse) + " to " + NameAt(b.surah - 1) + " " + IntToString(b.verse)
  {
    FormatVerseRangeLayout(a, b);
    SurahNameOfRef(a);
    SurahNameOfRef(b);
  }

  /** A surah number outside the table renders as "null", as a template literal shows a missing name. */
  lemma FormatUnknownSurah(r: VerseRef)
    requires !(1 <= r.surah <= NUM_SURAHS)
    ensures FormatVerseRange(FormatVerseRef(r), FormatVerseRef(r)) == "null " + IntToString(r.verse)
  {
    FormatVerseRangeLayout(r, r);
    SurahNameOfRef(r);
  }

  /** `id` lies in the inclusive interval lo..hi. */
  predicate InInterval(id: int, lo: int, hi: int)
  {
    lo <= id <= hi
  }

  /** Both ends of the range can be indexed without reading past the table. */
  predicate Indexable(range: VerseRange)
  {
    range.start.surah <= NUM_SURAHS + 1 && range.end.surah <= NUM_SURAHS + 1
  }

  /** `rangesOverlap` as written: each range starts no later than the other ends. */
  function RangesOverlap(range1: VerseRange, range2: VerseRange): bool
    requires Indexable(range1) && Indexable(range2)
  {
    var start1 := GlobalId(range1.start);
    var end1 := GlobalId(range1.end);
    var start2 := GlobalId(range2.start);
    var end2 := GlobalId(range2.end);
    start1 <= end2 && start2 <= end1
  }

  /** Some index lies in both ranges. */
  ghost predicate ShareAVerse(range1: VerseRange, range2: VerseRange)
    requires Indexable(range1) && Indexable(range2)
  {
    exists id :: InInterval(id, GlobalId(range1.start), GlobalId(range1.end))
              && InInterval(id, GlobalId(range2.start), GlobalId(range2.end))
  }

  /**
   * Overlap is symmetric, and for ranges whose start does not come after
   * their end it means exactly that some verse lies in both.
   */
  lemma RangesOverlapSpec(range1: VerseRange, range2: VerseRange)
    requires Indexable(range1) && Indexable(range2)
    ensures RangesOverlap(range1, range2) == RangesOverlap(range2, range1)
    ensures GlobalId(range1.start) <= GlobalId(range1.end) && GlobalId(range2.start) <= GlobalId(range2.end) ==>
      (RangesOverlap(range1, range2) <==> ShareAVerse(range1, range2))
  {
    var start1 := GlobalId(range1.start);
    var start2 := GlobalId(range2.start);
    if RangesOverlap(range1, range2) && start1 <= GlobalId(range1.end) && start2 <= GlobalId(range2.end) {
      var id := if start1 <= start2 then start2 else start1;
      assert InInterval(id, start1, GlobalId(range1.end));
    }
  }

  /**
   * An inverted range holds no verse, yet `rangesOverlap` can report that it
   * overlaps another: 1:10..1:5 against 1:1..1:20.
   */
  lemma RangesOverlapInverted()
    ensures var inverted := VerseRange(VerseRef(1, 10), VerseRef(1, 5));
            var wide := VerseRange(VerseRef(1, 1), VerseRef(1, 20));
            RangesOverlap(inverted, wide) && !ShareAVerse(inverted, wide)
  {
  }

  /** Overlap that also demands each range to be in order. */
  function RangesIntersect(range1: VerseRange, range2: VerseRange): bool
    requires Indexable(range1) && Indexable(range2)
  {
    var start1 := GlobalId(range1.start);
    var end1 := GlobalId(range1.end);
    var start2 := GlobalId(range2.start);
    var end2 := GlobalId(range2.end);
    start1 <= end1 && start2 <= end2 && start1 <= end2 && start2 <= end1
  }

  /** The ordered test is symmetric and means exactly that some verse lies in both ranges. */
  lemma RangesIntersectSpec(range1: VerseRange, range2: VerseRange)
    requires Indexable(range1) && Indexable(range2)
    ensures RangesIntersect(range1, range2) == RangesIntersect(range2, range1)
    ensures RangesIntersect(range1, range2) <==> ShareAVerse(range1, range2)
  {
    var start1 := GlobalId(range1.start);
    var start2 := GlobalId(range2.start);
    if RangesIntersect(range1, range2) {
      var id := if start1 <= start2 then start2 else start1;
      assert InInterval(id, start1, GlobalId(range1.end));
    }
  }
}
