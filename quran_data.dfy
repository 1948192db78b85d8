/**
 * The static surah table the verse algebra is built on: 114 surahs in reading
 * order, row i holding surah number i + 1 with its name and verse count.  The
 * table is kept column by column (`NumberAt`, `NameAt`, `VersesAt`), each
 * indexed by row.  The verse counts are the canonical ones; they add up to
 * the 6236 verses that the journey code hard-codes as the length of the Quran.
 */
module QuranData {
  import opened Wrappers

  const NUM_SURAHS: nat := 114
  const TOTAL_VERSES: nat := 6236

  type PosNat = n: nat | n >= 1 witness 1

  /** The verse counts of surahs 1..114, ten to a block (`QURAN_SURAHS[i].verses`). */
  const VERSES0: seq<PosNat> := [7, 286, 200, 176, 120, 165, 206, 75, 129, 109]
  const VERSES1: seq<PosNat> := [123, 111, 43, 52, 99, 128, 111, 110, 98, 135]
  const VERSES2: seq<PosNat> := [112, 78, 118, 64, 77, 227, 93, 88, 69, 60]
  const VERSES3: seq<PosNat> := [34, 30, 73, 54, 45, 83, 182, 88, 75, 85]
  const VERSES4: seq<PosNat> := [54, 53, 89, 59, 37, 35, 38, 29, 18, 45]
  const VERSES5: seq<PosNat> := [60, 49, 62, 55, 78, 96, 29, 22, 24, 13]
  const VERSES6: seq<PosNat> := [14, 11, 11, 18, 12, 12, 30, 52, 52, 44]
  const VERSES7: seq<PosNat> := [28, 28, 20, 56, 40, 31, 50, 40, 46, 42]
  const VERSES8: seq<PosNat> := [29, 19, 36, 25, 22, 17, 19, 26, 30, 20]
  const VERSES9: seq<PosNat> := [15, 21, 11, 8, 8, 19, 5, 8, 8, 11]
  const VERSES10: seq<PosNat> := [11, 8, 3, 9, 5, 4, 7, 3, 6, 3]
  const VERSES11: seq<PosNat> := [5, 4, 5, 6]

  /** Verse count in row i; every surah has at least one verse. */
  function VersesAt(i: nat): PosNat
    requires i < NUM_SURAHS
  {
    if i < 10 then VERSES0[i]
    else if i < 20 then VERSES1[i - 10]
    else if i < 30 then VERSES2[i - 20]
    else if i < 40 then VERSES3[i - 30]
    else if i < 50 then VERSES4[i - 40]
    else if i < 60 then VERSES5[i - 50]
    else if i < 70 then VERSES6[i - 60]
    else if i < 80 then VERSES7[i - 70]
    else if i < 90 then VERSES8[i - 80]
    else if i < 100 then VERSES9[i - 90]
    else if i < 110 then VERSES10[i - 100]
    else VERSES11[i - 110]
  }

  /** Name in row i (`QURAN_SURAHS[i].name`): a common transliteration, used for display only. */
  function NameAt(i: nat): string
    requires i < NUM_SURAHS
  {
    match i
    case 0 => "Al-Fatihah"
    case 1 => "Al-Baqarah"
    case 2 => "Ali 'Imran"
    case 3 => "An-Nisa"
    case 4 => "Al-Ma'idah"
    case 5 => "Al-An'am"
    case 6 => "Al-A'raf"
    case 7 => "Al-Anfal"
    case 8 => "At-Tawbah"
    case 9 => "Yunus"
    case 10 => "Hud"
    case 11 => "Yusuf"
    case 12 => "Ar-Ra'd"
    case 13 => "Ibrahim"
    case 14 => "Al-Hijr"
    case 15 => "An-Nahl"
    case 16 => "Al-Isra"
    case 17 => "Al-Kahf"
    case 18 => "Maryam"
    case 19 => "Taha"
    case 20 => "Al-Anbya"
    case 21 => "Al-Hajj"
    case 22 => "Al-Mu'minun"
    case 23 => "An-Nur"
    case 24 => "Al-Furqan"
    case 25 => "Ash-Shu'ara"
    case 26 => "An-Naml"
    case 27 => "Al-Qasas"
    case 28 => "Al-'Ankabut"
    case 29 => "Ar-Rum"
    case 30 => "Luqman"
    case 31 => "As-Sajdah"
    case 32 => "Al-Ahzab"
    case 33 => "Saba"
    case 34 => "Fatir"
    case 35 => "Ya-Sin"
    case 36 => "As-Saffat"
    case 37 => "Sad"
    case 38 => "Az-Zumar"
    case 39 => "Ghafir"
    case 40 => "Fussilat"
    case 41 => "Ash-Shuraa"
    case 42 => "Az-Zukhruf"
    case 43 => "Ad-Dukhan"
    case 44 => "Al-Jathiyah"
    case 45 => "Al-Ahqaf"
    case 46 => "Muhammad"
    case 47 => "Al-Fath"
    case 48 => "Al-Hujurat"
    case 49 => "Qaf"
    case 50 => "Adh-Dhariyat"
    case 51 => "At-Tur"
    case 52 => "An-Najm"
    case 53 => "Al-Qamar"
    case 54 => "Ar-Rahman"
    case 55 => "Al-Waqi'ah"
    case 56 => "Al-Hadid"
    case 57 => "Al-Mujadila"
    case 58 => "Al-Hashr"
    case 59 => "Al-Mumtahanah"
    case 60 => "As-Saf"
    case 61 => "Al-Jumu'ah"
    case 62 => "Al-Munafiqun"
    case 63 => "At-Taghabun"
    case 64 => "At-Talaq"
    case 65 => "At-Tahrim"
    case 66 => "Al-Mulk"
    case 67 => "Al-Qalam"
    case 68 => "Al-Haqqah"
    case 69 => "Al-Ma'arij"
    case 70 => "Nuh"
    case 71 => "Al-Jinn"
    case 72 => "Al-Muzzammil"
    case 73 => "Al-Muddaththir"
    case 74 => "Al-Qiyamah"
    case 75 => "Al-Insan"
    case 76 => "Al-Mursalat"
    case 77 => "An-Naba"
    case 78 => "An-Nazi'at"
    case 79 => "'Abasa"
    case 80 => "At-Takwir"
    case 81 => "Al-Infitar"
    case 82 => "Al-Mutaffifin"
    case 83 => "Al-Inshiqaq"
    case 84 => "Al-Buruj"
    case 85 => "At-Tariq"
    case 86 => "Al-A'la"
    case 87 => "Al-Ghashiyah"
    case 88 => "Al-Fajr"
    case 89 => "Al-Balad"
    case 90 => "Ash-Shams"
    case 91 => "Al-Layl"
    case 92 => "Ad-Duhaa"
    case 93 => "Ash-Sharh"
    case 94 => "At-Tin"
    case 95 => "Al-'Alaq"
    case 96 => "Al-Qadr"
    case 97 => "Al-Bayyinah"
    case 98 => "Az-Zalzalah"
    case 99 => "Al-'Adiyat"
    case 100 => "Al-Qari'ah"
    case 101 => "At-Takathur"
    case 102 => "Al-'Asr"
    case 103 => "Al-Humazah"
    case 104 => "Al-Fil"
    case 105 => "Quraysh"
    case 106 => "Al-Ma'un"
    case 107 => "Al-Kawthar"
    case 108 => "Al-Kafirun"
    case 109 => "An-Nasr"
    case 110 => "Al-Masad"
    case 111 => "Al-Ikhlas"
    case 112 => "Al-Falaq"
    case _ => "An-Nas"
  }

  /** Surah number in row i (`QURAN_SURAHS[i].number`). */
  function NumberAt(i: nat): int
    requires i < NUM_SURAHS
  {
    i + 1
  }

  /** From row `from` on, the first row whose number is n. */
  function FindFrom(from: nat, n: int): Option<nat>
    decreases NUM_SURAHS - from
  {
    if from >= NUM_SURAHS then None
    else if NumberAt(from) == n then Some(from)
    else FindFrom(from + 1, n)
  }

  /** `QURAN_SURAHS.find(s => s.number === n)`, given as the row it finds. */
  function FindSurah(n: int): Option<nat>
  {
    FindFrom(0, n)
  }

  lemma {:induction false} FindFromSpec(from: nat, n: int)
    requires from <= NUM_SURAHS
    ensures FindFrom(from, n) == if from + 1 <= n <= NUM_SURAHS then Some(n - 1) else None
    decreases NUM_SURAHS - from
  {
    if from < NUM_SURAHS && NumberAt(from) != n {
      FindFromSpec(from + 1, n);
    }
  }

  /** The search finds a row exactly for the numbers 1..114, and that row is row n - 1. */
  lemma FindSurahSpec(n: int)
    ensures FindSurah(n) == if 1 <= n <= NUM_SURAHS then Some(n - 1) else None
  {
    FindFromSpec(0, n);
  }

  /** Number of verses in the first k surahs of the table. */
  function PrefixSum(k: nat): nat
    requires k <= NUM_SURAHS
  {
    if k == 0 then 0 else PrefixSum(k - 1) + VersesAt(k - 1)
  }

  /** Number of verses in the surahs from row k to the end of the table. */
  function SuffixSum(k: nat): nat
    requires k <= NUM_SURAHS
    decreases NUM_SURAHS - k
  {
    if k == NUM_SURAHS then 0 else VersesAt(k) + SuffixSum(k + 1)
  }

  /** Every surah adds at least one verse to the running total. */
  lemma {:induction false} PrefixSumGrows(j: nat, k: nat)
    requires j <= k <= NUM_SURAHS
    ensures PrefixSum(j) + (k - j) <= PrefixSum(k)
    decreases k
  {
    if j < k {
      PrefixSumGrows(j, k - 1);
    }
  }

  lemma PrefixSum10()
    ensures PrefixSum(10) == 1473
  {}

  lemma PrefixSum20()
    ensures PrefixSum(20) == 2483
  { PrefixSum10(); }

  lemma PrefixSum30()
    ensures PrefixSum(30) == 3469
  { PrefixSum20(); }

  lemma PrefixSum40()
    ensures PrefixSum(40) == 4218
  { PrefixSum30(); }

  lemma PrefixSum50()
    ensures PrefixSum(50) == 4675
  { PrefixSum40(); }

  lemma PrefixSum60()
    ensures PrefixSum(60) == 5163
  { PrefixSum50(); }

  lemma PrefixSum70()
    ensures PrefixSum(70) == 5419
  { PrefixSum60(); }

  lemma PrefixSum80()
    ensures PrefixSum(80) == 5800
  { PrefixSum70(); }

  lemma PrefixSum90()
    ensures PrefixSum(90) == 6043
  { PrefixSum80(); }

  lemma PrefixSum100()
    ensures PrefixSum(100) == 6157
  { PrefixSum90(); }

  lemma PrefixSum110()
    ensures PrefixSum(110) == 6216
  { PrefixSum100(); }

  /** The table lists 6236 verses in all. */
  lemma TotalIsSum()
    ensures PrefixSum(NUM_SURAHS) == TOTAL_VERSES
  {
    PrefixSum110();
  }

  /** The verses before row k and those from row k on make up the whole table. */
  lemma {:induction false} PrefixSuffix(k: nat)
    requires k <= NUM_SURAHS
    ensures PrefixSum(k) + SuffixSum(k) == TOTAL_VERSES
    decreases NUM_SURAHS - k
  {
    if k == NUM_SURAHS {
      TotalIsSum();
    } else {
      PrefixSuffix(k + 1);
    }
  }
}
