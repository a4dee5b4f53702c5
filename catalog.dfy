/**
 * The static university catalog (`src/data/mockUniversities.js`) and its two queries.
 * Display-only strings of an entry (fees, ranking, deadline, description, acceptance
 * rate) are not part of the model.
 */
module Catalog {
  import opened Wrappers
  import opened JsText

  /** An entry's minimum requirements; `gmat` is `None` where the entry defines none. */
  datatype Requirements = Requirements(
    gpa: string, gre: string, gmat: Option<string>, ielts: string, toefl: string,
    lors: int, sop: string, workExp: string)

  /** The profile of an average admitted student. */
  datatype AverageProfile = AverageProfile(gpa: real, gre: real, ielts: real)

  /** The three category labels an entry can carry. */
  datatype Category = Safe | Moderate | Ambitious {
    /** The label as the catalog spells it. */
    function Label(): string {
      match this
      case Safe => "Safe"
      case Moderate => "Moderate"
      case Ambitious => "Ambitious"
    }
  }

  datatype University = University(
    id: int, name: string, category: Category, matchScore: int, country: string,
    requirements: Requirements, averageProfile: AverageProfile)

  const ArizonaState: University :=
    University(1, "Arizona State University", Safe, 85, "USA",
    Requirements("3.0+", "300+", None, "6.5", "80", 2, "Required", "Not required"),
    AverageProfile(3.4, 315.0, 7.0))
  const Cincinnati: University :=
    University(2, "University of Cincinnati", Safe, 82, "USA",
    Requirements("3.0+", "295+", None, "6.5", "79", 2, "Required", "Preferred"),
    AverageProfile(3.3, 310.0, 6.8))
  const Warwick: University :=
    University(3, "University of Warwick", Moderate, 72, "UK",
    Requirements("3.3+", "320+", None, "7.0", "92", 2, "Required", "2+ years preferred"),
    AverageProfile(3.6, 325.0, 7.5))
  const Toronto: University :=
    University(4, "University of Toronto", Moderate, 68, "Canada",
    Requirements("3.5+", "315+", None, "7.0", "93", 3, "Required", "Recommended"),
    AverageProfile(3.7, 322.0, 7.3))
  const Melbourne: University :=
    University(5, "University of Melbourne", Moderate, 70, "Australia",
    Requirements("3.4+", "310+", None, "6.5", "79", 2, "Required", "Not required"),
    AverageProfile(3.6, 318.0, 7.2))
  const Stanford: University :=
    University(6, "Stanford University", Ambitious, 45, "USA",
    Requirements("3.8+", "330+", None, "7.5", "100", 3, "Required", "3+ years preferred"),
    AverageProfile(3.9, 335.0, 8.0))
  const Mit: University :=
    University(7, "MIT", Ambitious, 42, "USA",
    Requirements("3.9+", "335+", None, "7.5", "100", 3, "Required", "Research experience required"),
    AverageProfile(3.95, 340.0, 8.2))
  const Oxford: University :=
    University(8, "Oxford University", Ambitious, 38, "UK",
    Requirements("3.8+", "330+", None, "7.5", "110", 3, "Required", "Exceptional background required"),
    AverageProfile(3.9, 338.0, 8.1))

  /** `universities`: the catalog, in its listed order. */
  const Universities: seq<University> :=
    [ArizonaState, Cincinnati, Warwick, Toronto,
     Melbourne, Stanford, Mit, Oxford]

  /** `r` can be obtained from `s` by deleting elements: same order, nothing new. */
  ghost predicate IsSubsequence<T>(r: seq<T>, s: seq<T>)
    decreases |s|
  {
    if r == [] then true
    else if s == [] then false
    else (r[0] == s[0] && IsSubsequence(r[1..], s[1..])) || IsSubsequence(r, s[1..])
  }

  /** `s.filter(uni => uni.category === cat)`, comparing labels. */
  function WithCategory(s: seq<University>, cat: Category): (r: seq<University>)
    ensures forall u :: u in r <==> u in s && u.category == cat
    ensures |r| <= |s|
  {
    if s == [] then []
    else
      var rest := WithCategory(s[1..], cat);
      assert s == [s[0]] + s[1..];
      if s[0].category == cat then [s[0]] + rest else rest
  }

  /** The filter keeps every occurrence of an entry with the category, and no other entry. */
  lemma {:induction false} WithCategoryCounts(s: seq<University>, cat: Category, u: University)
    ensures multiset(WithCategory(s, cat))[u] == if u.category == cat then multiset(s)[u] else 0
    decreases |s|
  {
    if s != [] {
      assert s == [s[0]] + s[1..];
      assert multiset(s) == multiset([s[0]]) + multiset(s[1..]);
      WithCategoryCounts(s[1..], cat, u);
      if s[0].category == cat {
        assert WithCategory(s, cat) == [s[0]] + WithCategory(s[1..], cat);
      } else {
        assert WithCategory(s, cat) == WithCategory(s[1..], cat);
      }
    }
  }

  /** The filter keeps the entries it keeps in their order: its result is a subsequence. */
  lemma {:induction false} WithCategoryKeepsOrder(s: seq<University>, cat: Category)
    ensures IsSubsequence(WithCategory(s, cat), s)
    decreases |s|
  {
    if s != [] {
      var rest := WithCategory(s[1..], cat);
      WithCategoryKeepsOrder(s[1..], cat);
      if s[0].category == cat {
        var r := [s[0]] + rest;
        assert r[0] == s[0] && r[1..] == rest;
      }
    }
  }

  datatype ByCategory = ByCategory(safe: seq<University>, moderate: seq<University>, ambitious: seq<University>)

  /** `getUniversitiesByCategory()`: the catalog split by category label, each list in catalog order. */
  function GetUniversitiesByCategory(): (r: ByCategory)
    ensures forall u :: u in r.safe <==> u in Universities && u.category == Safe
    ensures forall u :: u in r.moderate <==> u in Universities && u.category == Moderate
    ensures forall u :: u in r.ambitious <==> u in Universities && u.category == Ambitious
  {
    ByCategory(WithCategory(Universities, Safe), WithCategory(Universities, Moderate),
               WithCategory(Universities, Ambitious))
  }

  /** `s.find(uni => uni.id === n)`: the first entry whose id equals the number `n`. */
  function FindById(s: seq<University>, n: Number): (r: Option<University>)
    ensures r.Some? ==> r.value in s && n == Some(r.value.id as real)
    ensures r.None? <==> forall u :: u in s ==> n != Some(u.id as real)
  {
    if s == [] then None
    else if n == Some(s[0].id as real) then Some(s[0])
    else
      var r := FindById(s[1..], n);
      assert s == [s[0]] + s[1..];
      r
  }

  /** `find` answers the first match: the entry at `k` when no earlier entry matches. */
  lemma {:induction false} FindByIdFirst(s: seq<University>, n: Number, k: nat)
    requires k < |s| && n == Some(s[k].id as real)
    requires forall j | 0 <= j < k :: n != Some(s[j].id as real)
    ensures FindById(s, n) == Some(s[k])
  {
    if k > 0 {
      assert forall j | 0 <= j < k - 1 :: s[1..][j] == s[j + 1];
      FindByIdFirst(s[1..], n, k - 1);
    }
  }

  /**
   * `getUniversityById(id)`: the entry whose id is `parseInt(id)`, and undefined exactly
   * when no entry has that id.
   */
  function GetUniversityById(id: string): (r: Option<University>)
    ensures r.Some? ==> r.value in Universities && ParseInt(id) == Some(r.value.id as real)
    ensures r.None? <==> forall u :: u in Universities ==> ParseInt(id) != Some(u.id as real)
  {
    FindById(Universities, ParseInt(id))
  }

  // ---------------------------------------------------------------------------
  // Facts about the constant catalog that the feedback engine relies on.
  // ---------------------------------------------------------------------------

  /** The thresholds of an entry are consistent: each minimum parses, is positive and is at most the average. */
  predicate ThresholdsConsistent(u: University) {
    var gre := ParseFloat(StripNonDigits(u.requirements.gre));
    var ielts := ParseFloat(u.requirements.ielts);
    && gre.Some? && 0.0 < gre.value <= u.averageProfile.gre
    && ielts.Some? && 0.0 < ielts.value <= u.averageProfile.ielts
    && u.requirements.gmat.None?
  }

  lemma {:induction false} CatalogIds()
    ensures |Universities| == 8
    ensures forall k :: 0 <= k < 8 ==> Universities[k].id == k + 1
  {
  }

  /** Ids are distinct, so at most one entry answers a lookup. */
  lemma {:induction false} CatalogIdsDistinct()
    ensures forall i, j :: 0 <= i < j < |Universities| ==> Universities[i].id != Universities[j].id
  {
    CatalogIds();
  }

  /**
   * `parseInt` reads a `0x` id in base 16: `getUniversityById("0x" + d)` for one hexadecimal
   * digit `d` is the entry with id `d`, or undefined when no entry has it.
   */
  lemma {:induction false} LookupByHexId(id: string, d: char)
    requires IsRadixDigit(d, 16) && id == "0x" + [d]
    ensures var k := HexDigitValue(d);
            GetUniversityById(id) == if 1 <= k <= 8 then Some(Universities[k - 1]) else None
  {
    var ds := [d];
    assert ds[..0] == [];
    assert RadixValue(ds, 16) == HexDigitValue(d);
    ParseIntHex(id, ds);
    LookupNumber(HexDigitValue(d));
  }

  /** `getUniversityById(String(k))` is entry `k` for the ids 1 to 8, and undefined for any other number. */
  lemma {:induction false} LookupById(k: int)
    ensures 1 <= k <= 8 ==> GetUniversityById(IntToString(k)) == Some(Universities[k - 1])
    ensures !(1 <= k <= 8) ==> GetUniversityById(IntToString(k)) == None
  {
    ParseIntOfIntString(k);
    LookupNumber(k);
  }

  /** Looking up the number `k` finds entry `k` for the ids 1 to 8, and nothing otherwise. */
  lemma {:induction false} LookupNumber(k: int)
    ensures 1 <= k <= 8 ==> FindById(Universities, Some(k as real)) == Some(Universities[k - 1])
    ensures !(1 <= k <= 8) ==> FindById(Universities, Some(k as real)) == None
  {
    CatalogIds();
    var n: Number := Some(k as real);
    var r := FindById(Universities, n);
    if 1 <= k <= 8 {
      forall j | 0 <= j < k - 1 ensures n != Some(Universities[j].id as real) {
        assert Universities[j].id == j + 1;
      }
      FindByIdFirst(Universities, n, k - 1);
    } else {
      forall u | u in Universities ensures n != Some(u.id as real) {
        var i :| 0 <= i < |Universities| && Universities[i] == u;
        assert u.id == i + 1;
      }
    }
  }

  /** Whatever the id string, a found entry is the only entry with that id. */
  lemma {:induction false} LookupUnique(id: string, u: University)
    requires GetUniversityById(id) == Some(u)
    ensures forall v :: v in Universities && v.id == u.id ==> v == u
  {
    CatalogIdsDistinct();
    UniqueIds(Universities, u);
  }

  /** In a list with distinct ids, an id names one entry. */
  lemma {:induction false} UniqueIds(s: seq<University>, u: University)
    requires forall i, j :: 0 <= i < j < |s| ==> s[i].id != s[j].id
    requires u in s
    ensures forall v :: v in s && v.id == u.id ==> v == u
  {
    forall v | v in s && v.id == u.id ensures v == u {
      var i :| 0 <= i < |s| && s[i] == v;
      var j :| 0 <= j < |s| && s[j] == u;
      assert !(i < j) && !(j < i);
    }
  }

  /** A GRE minimum of the catalog's form `ddd+` reads as its three digits once cleaned. */
  lemma {:induction false} ThreeDigitsPlus(g: string)
    requires |g| == 4 && IsDigit(g[0]) && IsDigit(g[1]) && IsDigit(g[2]) && g[3] == '+'
    ensures var p := ParseFloat(StripNonDigits(g));
            p.Some? && p.value == (100 * DigitValue(g[0]) + 10 * DigitValue(g[1]) + DigitValue(g[2])) as real
  {
    StripTrailingPlus(g);
    ParseFloatDigits(g[..3]);
    ThreeDigitsValue(g[..3]);
  }

  lemma {:induction false} StripTrailingPlus(g: string)
    requires |g| == 4 && IsDigit(g[0]) && IsDigit(g[1]) && IsDigit(g[2]) && g[3] == '+'
    ensures StripNonDigits(g) == g[..3]
  {
    var s3 := StripNonDigits(g[3..]);
    assert s3 == [] by {
      assert g[3..][1..] == [];
    }
    assert g[2..][1..] == g[3..];
    var s2 := StripNonDigits(g[2..]);
    assert s2 == [g[2]];
    assert g[1..][1..] == g[2..];
    var s1 := StripNonDigits(g[1..]);
    assert s1 == [g[1], g[2]];
    assert StripNonDigits(g) == [g[0], g[1], g[2]];
    assert g[..3] == [g[0], g[1], g[2]];
  }

  lemma {:induction false} ThreeDigitsValue(ds: string)
    requires |ds| == 3 && AllDigits(ds)
    ensures DigitsValue(ds) == 100 * DigitValue(ds[0]) + 10 * DigitValue(ds[1]) + DigitValue(ds[2])
  {
    SingleDigit(ds[0]);
    assert ds[..2][..1] == [ds[0]];
    assert DigitsValue(ds[..2]) == 10 * DigitValue(ds[0]) + DigitValue(ds[1]);
  }

  lemma {:induction false} SingleDigit(c: char)
    requires IsDigit(c)
    ensures DigitsValue([c]) == DigitValue(c)
  {
    assert [c][..0] == [];
  }

  /** An IELTS minimum of the catalog's form `d.d`. */
  lemma {:induction false} OneDecimal(a: char, b: char)
    requires IsDigit(a) && IsDigit(b)
    ensures var p := ParseFloat([a] + "." + [b]);
            p.Some? && p.value == DigitValue(a) as real + DigitValue(b) as real / 10.0
  {
    ParseFloatDecimal([a], [b]);
    OneDigitDecimal(a, b);
  }

  lemma {:induction false} OneDecimalShape(t: string)
    requires |t| == 3 && t[1] == '.'
    ensures t == [t[0]] + "." + [t[2]]
  {
  }

  lemma {:induction false} OneDigitDecimal(a: char, b: char)
    requires IsDigit(a) && IsDigit(b)
    ensures DecimalValue([a], [b]) == DigitValue(a) as real + DigitValue(b) as real / 10.0
  {
    SingleDigit(a);
    SingleDigit(b);
    assert Shift(DigitValue(b) as real, 1) == DigitValue(b) as real / 10.0;
  }

  lemma {:induction false} CatalogEntryThresholds(k: nat)
    requires k < 8
    ensures ThresholdsConsistent(Universities[k])
  {
    EntryThresholds(Universities[k]);
  }

  /** An entry whose minimums have the catalog's forms `ddd+` and `d.d` and lie at or below its averages. */
  lemma {:induction false} EntryThresholds(u: University)
    requires var g := u.requirements.gre;
             && |g| == 4 && IsDigit(g[0]) && IsDigit(g[1]) && IsDigit(g[2]) && g[3] == '+'
             && 0 < 100 * DigitValue(g[0]) + 10 * DigitValue(g[1]) + DigitValue(g[2])
             && (100 * DigitValue(g[0]) + 10 * DigitValue(g[1]) + DigitValue(g[2])) as real <= u.averageProfile.gre
    requires var t := u.requirements.ielts;
             && |t| == 3 && IsDigit(t[0]) && t[1] == '.' && IsDigit(t[2])
             && 0.0 < DigitValue(t[0]) as real + DigitValue(t[2]) as real / 10.0 <= u.averageProfile.ielts
    requires u.requirements.gmat.None?
    ensures ThresholdsConsistent(u)
  {
    ThreeDigitsPlus(u.requirements.gre);
    var t := u.requirements.ielts;
    OneDecimalShape(t);
    OneDecimal(t[0], t[2]);
  }

  /** Every entry's GRE and IELTS minimums parse and lie at or below its averages; no entry defines a GMAT minimum. */
  lemma {:induction false} CatalogThresholds()
    ensures forall u :: u in Universities ==> ThresholdsConsistent(u)
  {
    forall k | 0 <= k < |Universities| ensures ThresholdsConsistent(Universities[k]) {
      CatalogEntryThresholds(k);
    }
  }

  /** Filtering distributes over concatenation. */
  lemma {:induction false} WithCategoryAppend(a: seq<University>, b: seq<University>, cat: Category)
    ensures WithCategory(a + b, cat) == WithCategory(a, cat) + WithCategory(b, cat)
  {
    if a == [] {
      assert a + b == b;
    } else {
      var ab := a + b;
      AppendTail(a, b);
      WithCategoryAppend(a[1..], b, cat);
      var h: seq<University> := if a[0].category == cat then [a[0]] else [];
      assert WithCategory(ab, cat) == h + WithCategory(a[1..] + b, cat);
      assert WithCategory(a, cat) == h + WithCategory(a[1..], cat);
      AppendAssoc(h, WithCategory(a[1..], cat), WithCategory(b, cat));
    }
  }

  lemma {:induction false} AppendTail<T>(a: seq<T>, b: seq<T>)
    requires a != []
    ensures (a + b)[0] == a[0] && (a + b)[1..] == a[1..] + b
  {
  }

  lemma {:induction false} AppendAssoc<T>(x: seq<T>, y: seq<T>, z: seq<T>)
    ensures x + (y + z) == (x + y) + z
  {
  }

  /** Filtering a list whose entries all carry label `c` keeps it whole for `c` and empties it for any other label. */
  lemma {:induction false} WithCategoryUniform(s: seq<University>, c: Category, cat: Category)
    requires forall i | 0 <= i < |s| :: s[i].category == c
    ensures WithCategory(s, cat) == if cat == c then s else []
  {
    if s != [] {
      WithCategoryUniform(s[1..], c, cat);
      assert s == [s[0]] + s[1..];
    }
  }

  const SafeBlock: seq<University> := [ArizonaState, Cincinnati]
  const ModerateBlock: seq<University> := [Warwick, Toronto, Melbourne]
  const AmbitiousBlock: seq<University> := [Stanford, Mit, Oxford]

  lemma {:induction false} CatalogIsBlocks()
    ensures Universities == SafeBlock + ModerateBlock + AmbitiousBlock
  {
    ConcatBlocks(SafeBlock, ModerateBlock, AmbitiousBlock,
                 ArizonaState, Cincinnati, Warwick, Toronto, Melbourne, Stanford, Mit, Oxford);
  }

  lemma {:induction false} ConcatBlocks<X>(a: seq<X>, b: seq<X>, c: seq<X>, x0: X, x1: X, x2: X, x3: X, x4: X, x5: X, x6: X, x7: X)
    requires a == [x0, x1] && b == [x2, x3, x4] && c == [x5, x6, x7]
    ensures a + b + c == [x0, x1, x2, x3, x4, x5, x6, x7]
  {
  }

  /** The catalog lists its Safe entries first, then the Moderate ones, then the Ambitious ones. */
  lemma {:induction false} CatalogBlocks(cat: Category)
    ensures WithCategory(Universities, cat) ==
            WithCategory(SafeBlock, cat) + WithCategory(ModerateBlock, cat) + WithCategory(AmbitiousBlock, cat)
  {
    CatalogIsBlocks();
    WithCategoryAppend(SafeBlock + ModerateBlock, AmbitiousBlock, cat);
    WithCategoryAppend(SafeBlock, ModerateBlock, cat);
  }

  /** Each block's entries carry the block's label. */
  lemma {:induction false} BlockLabels(s: seq<University>, m: seq<University>, b: seq<University>)
    requires s == SafeBlock && m == ModerateBlock && b == AmbitiousBlock
    ensures forall i | 0 <= i < |s| :: s[i].category == Safe
    ensures forall i | 0 <= i < |m| :: m[i].category == Moderate
    ensures forall i | 0 <= i < |b| :: b[i].category == Ambitious
  {
    assert ArizonaState.category == Safe && Cincinnati.category == Safe;
    assert Warwick.category == Moderate && Toronto.category == Moderate && Melbourne.category == Moderate;
    assert Stanford.category == Ambitious && Mit.category == Ambitious && Oxford.category == Ambitious;
  }

  /** Each category's list is exactly that category's block of the catalog. */
  lemma {:induction false} CategoryBlock(cat: Category)
    ensures WithCategory(Universities, cat) ==
            match cat case Safe => SafeBlock case Moderate => ModerateBlock case Ambitious => AmbitiousBlock
  {
    CatalogBlocks(cat);
    BlockLabels(SafeBlock, ModerateBlock, AmbitiousBlock);
    FilterBlocks(SafeBlock, ModerateBlock, AmbitiousBlock, cat);
  }

  /** Filtering three uniformly labelled lists, Safe, Moderate and Ambitious, leaves the one labelled `cat`. */
  lemma {:induction false} FilterBlocks(s: seq<University>, m: seq<University>, b: seq<University>, cat: Category)
    requires forall i | 0 <= i < |s| :: s[i].category == Safe
    requires forall i | 0 <= i < |m| :: m[i].category == Moderate
    requires forall i | 0 <= i < |b| :: b[i].category == Ambitious
    ensures WithCategory(s, cat) + WithCategory(m, cat) + WithCategory(b, cat) ==
            match cat case Safe => s case Moderate => m case Ambitious => b
  {
    WithCategoryUniform(s, Safe, cat);
    WithCategoryUniform(m, Moderate, cat);
    WithCategoryUniform(b, Ambitious, cat);
    match cat
    case Safe => ConcatEmpty(s);
    case Moderate => ConcatEmpty(m);
    case Ambitious => ConcatEmpty(b);
  }

  /** The three lists are the three blocks. */
  lemma {:induction false} ByCategoryBlocks()
    ensures GetUniversitiesByCategory() == ByCategory(SafeBlock, ModerateBlock, AmbitiousBlock)
  {
    CategoryBlock(Safe);
    CategoryBlock(Moderate);
    CategoryBlock(Ambitious);
  }

  lemma {:induction false} ConcatEmpty<T>(a: seq<T>)
    ensures a + [] + [] == a && [] + a + [] == a && [] + [] + a == a
  {
  }

  /** Every entry is Safe, Moderate or Ambitious, so the three lists partition the catalog (2, 3 and 3 entries). */
  lemma {:induction false} CatalogPartition()
    ensures var r := GetUniversitiesByCategory();
            |r.safe| == 2 && |r.moderate| == 3 && |r.ambitious| == 3 &&
            multiset(r.safe) + multiset(r.moderate) + multiset(r.ambitious) == multiset(Universities)
  {
    var r := GetUniversitiesByCategory();
    ByCategoryBlocks();
    BlocksPartition(r.safe, r.moderate, r.ambitious);
  }

  lemma {:induction false} BlocksPartition(s: seq<University>, m: seq<University>, b: seq<University>)
    requires s == SafeBlock && m == ModerateBlock && b == AmbitiousBlock
    ensures |s| == 2 && |m| == 3 && |b| == 3
    ensures multiset(s) + multiset(m) + multiset(b) == multiset(Universities)
  {
    CatalogIsBlocks();
    ConcatMultiset(s, m, b);
  }

  lemma {:induction false} ConcatMultiset<T>(a: seq<T>, b: seq<T>, c: seq<T>)
    ensures multiset(a + b + c) == multiset(a) + multiset(b) + multiset(c)
  {
  }

  /** Every Safe match score exceeds every Moderate one, which exceeds every Ambitious one. */
  lemma {:induction false} MatchScoresOrdered()
    ensures var r := GetUniversitiesByCategory();
            forall a, b | a in r.safe && b in r.moderate :: a.matchScore > b.matchScore
    ensures var r := GetUniversitiesByCategory();
            forall a, b | a in r.moderate && b in r.ambitious :: a.matchScore > b.matchScore
  {
    var r := GetUniversitiesByCategory();
    ByCategoryBlocks();
    BlockScoresOrdered(r.safe, r.moderate, r.ambitious);
  }

  lemma {:induction false} BlockScoresOrdered(s: seq<University>, m: seq<University>, b: seq<University>)
    requires s == SafeBlock && m == ModerateBlock && b == AmbitiousBlock
    ensures forall x, y | x in s && y in m :: x.matchScore > y.matchScore
    ensures forall x, y | x in m && y in b :: x.matchScore > y.matchScore
  {
    assert ArizonaState.matchScore == 85 && Cincinnati.matchScore == 82;
    assert Warwick.matchScore == 72 && Toronto.matchScore == 68 && Melbourne.matchScore == 70;
    assert Stanford.matchScore == 45 && Mit.matchScore == 42 && Oxford.matchScore == 38;
    ScoreBounds(s, 82, 85);
    ScoreBounds(m, 68, 72);
    ScoreBounds(b, 38, 45);
  }

  lemma {:induction false} ScoreBounds(s: seq<University>, lo: int, hi: int)
    requires forall i | 0 <= i < |s| :: lo <= s[i].matchScore <= hi
    ensures forall x | x in s :: lo <= x.matchScore <= hi
  {
    forall x | x in s ensures lo <= x.matchScore <= hi {
      var i :| 0 <= i < |s| && s[i] == x;
    }
  }
}
