/** Choosing between ActivityPub and HTML by the Accept header (sections 12.4.2 and 12.5.1 of RFC 9110). */
module Negotiation {
  import opened Wrappers
  import opened Text

  newtype u16 = x: int | 0 <= x < 0x1_0000

  /******* Quality values *******/

  predicate AllDigits(s: string) {
    forall i | 0 <= i < |s| :: IsDigit(s[i])
  }

  predicate AllZeros(s: string) {
    forall i | 0 <= i < |s| :: s[i] == '0'
  }

  function DigitValue(c: char): nat
    requires IsDigit(c)
  {
    c as int - '0' as int
  }

  function Number(digits: string): nat
    requires AllDigits(digits)
  {
    if digits == "" then 0 else 10 * Number(digits[..|digits| - 1]) + DigitValue(digits[|digits| - 1])
  }

  // `str::parse::<u16>` on a string of digits.
  function ParseU16(digits: string): Option<u16>
    requires AllDigits(digits)
  {
    if digits == "" || Number(digits) >= 0x1_0000 then None else Some(Number(digits) as u16)
  }

  function Pow10(n: nat): (p: nat)
    ensures p > 0
  {
    if n == 0 then 1 else 10 * Pow10(n - 1)
  }

  // `split_once('.')`, with nothing after a missing dot.
  function SplitOnce(s: string): (string, string) {
    match IndexOf('.', s)
    case None => (s, "")
    case Some(i) => (s[..i], s[i + 1..])
  }

  // At most three digits, written out.
  lemma NumberWrittenOut(digits: string)
    requires AllDigits(digits) && |digits| <= 3
    ensures Number(digits)
            == if |digits| == 0 then 0
               else if |digits| == 1 then DigitValue(digits[0])
               else if |digits| == 2 then 10 * DigitValue(digits[0]) + DigitValue(digits[1])
               else 100 * DigitValue(digits[0]) + 10 * DigitValue(digits[1]) + DigitValue(digits[2])
  {
    if |digits| == 1 {
      assert digits[..0] == "";
    } else if |digits| == 2 {
      assert digits[..1][..0] == "";
    } else if |digits| == 3 {
      assert digits[..2][..1] == digits[..1] && digits[..1][..0] == "";
    }
  }

  lemma PowersOfTen()
    ensures Pow10(0) == 1 && Pow10(1) == 10 && Pow10(2) == 100 && Pow10(3) == 1000
  {
  }

  lemma SmallNumber(digits: string)
    requires AllDigits(digits) && |digits| <= 3
    ensures Number(digits) < Pow10(|digits|) && Pow10(|digits|) * Pow10(3 - |digits|) == 1000
    ensures Number(digits) * Pow10(3 - |digits|) < 1000
  {
    NumberWrittenOut(digits);
    PowersOfTen();
  }

  // All arithmetic is on 16-bit numbers, so it must be shown not to overflow.
  function ParseQuality(value: string): Option<u16> {
    var (whole, fraction) := SplitOnce(value);
    if |fraction| > 3 || !AllDigits(fraction) then None
    else if whole == "0" then
      SmallNumber(fraction);
      var digits := match ParseU16(fraction) case Some(n) => n case None => 0;
      Some(digits * (Pow10(3 - |fraction|) as u16))
    else if whole == "1" && AllZeros(fraction) then Some(1000)
    else None
  }

  // "0" [ "." 0*3DIGIT ] / "1" [ "." 0*3("0") ]
  predicate IsQvalue(s: string) {
    && 1 <= |s| <= 5 && (|s| > 1 ==> s[1] == '.')
    && (s[0] == '0' || s[0] == '1')
    && forall i | 2 <= i < |s| :: if s[0] == '0' then IsDigit(s[i]) else s[i] == '0'
  }

  // The number a decimal fraction denotes.
  ghost function Fraction(digits: string): real
    requires AllDigits(digits)
  {
    if digits == "" then 0.0 else (DigitValue(digits[0]) as real + Fraction(digits[1..])) / 10.0
  }

  ghost function QvalueNumber(s: string): real
    requires IsQvalue(s)
  {
    DigitValue(s[0]) as real + if |s| <= 2 then 0.0 else Fraction(s[2..])
  }

  lemma SplitQvalue(s: string)
    ensures IsQvalue(s) ==> SplitOnce(s) == ([s[0]], if |s| > 1 then s[2..] else "")
    ensures var (whole, fraction) := SplitOnce(s);
            (whole == "0" || whole == "1") ==>
              |s| >= 1 && whole == [s[0]] && if |s| > 1 then s[1] == '.' && fraction == s[2..] else fraction == ""
  {
    IndexOfFirst('.', s);
    match IndexOf('.', s)
    case None =>
      assert |s| > 1 ==> s[1] != '.';
      assert |s| == 1 ==> s == [s[0]];
    case Some(i) =>
      assert i > 1 ==> s[1] == s[..i][1] != '.';
      if i == 1 {
        assert s[..1] == [s[0]];
      }
  }

  // What the digit in this place contributes.
  ghost function Thousandths(digits: string, place: nat): real
    requires AllDigits(digits) && place < 3
  {
    if place >= |digits| then 0.0
    else DigitValue(digits[place]) as real * if place == 0 then 100.0 else if place == 1 then 10.0 else 1.0
  }

  lemma FractionWrittenOut(digits: string)
    requires AllDigits(digits) && |digits| <= 3
    ensures 1000.0 * Fraction(digits) == Thousandths(digits, 0) + Thousandths(digits, 1) + Thousandths(digits, 2)
  {
    if |digits| == 1 {
      assert digits[1..] == "";
    } else if |digits| == 2 {
      assert digits[1..][1..] == "";
    } else if |digits| == 3 {
      assert digits[1..][1..] == digits[2..] && digits[2..][1..] == "";
    }
  }

  lemma ScaledFraction(digits: string)
    requires AllDigits(digits) && |digits| <= 3
    ensures (Number(digits) * Pow10(3 - |digits|)) as real == 1000.0 * Fraction(digits)
  {
    NumberWrittenOut(digits);
    FractionWrittenOut(digits);
    PowersOfTen();
  }

  lemma {:induction false} ZeroFraction(digits: string)
    requires AllZeros(digits)
    ensures AllDigits(digits) && Fraction(digits) == 0.0
  {
    if digits != "" {
      ZeroFraction(digits[1..]);
    }
  }

  /** Exactly the quality values of RFC 9110 are accepted, and the result is a thousand times their number. */
  lemma QualityLanguage(s: string)
    ensures ParseQuality(s).Some? <==> IsQvalue(s)
    ensures IsQvalue(s) ==>
              ParseQuality(s).value <= 1000 && ParseQuality(s).value as int as real == 1000.0 * QvalueNumber(s)
  {
    var (whole, fraction) := SplitOnce(s);
    SplitQvalue(s);
    if IsQvalue(s) {
      assert forall i | 0 <= i < |fraction| :: fraction[i] == s[i + 2];
      QvalueIsParsed(s, fraction);
    } else if ParseQuality(s).Some? {
      assert forall i | 2 <= i < |s| :: s[i] == fraction[i - 2];
    }
  }

  lemma QvalueIsParsed(s: string, fraction: string)
    requires IsQvalue(s) && SplitOnce(s) == ([s[0]], fraction) && fraction == if |s| > 1 then s[2..] else ""
    requires AllDigits(fraction) && |fraction| <= 3 && (s[0] == '1' ==> AllZeros(fraction))
    ensures ParseQuality(s).Some? && ParseQuality(s).value <= 1000
    ensures ParseQuality(s).value as int as real == 1000.0 * QvalueNumber(s)
  {
    SmallNumber(fraction);
    ScaledFraction(fraction);
    if s[0] == '1' {
      ZeroFraction(fraction);
    }
  }

  // `k` decimals are enough to write `n` thousandths.
  predicate Fits(n: nat, k: nat) {
    n <= 1000 && k <= 3 && (k == 0 ==> n % 1000 == 0) && (k == 1 ==> n % 100 == 0) && (k == 2 ==> n % 10 == 0)
  }

  function Decimals(n: nat, k: nat): nat
    requires Fits(n, k)
  {
    if k == 0 then 0 else if k == 1 then n % 1000 / 100 else if k == 2 then n % 1000 / 10 else n % 1000
  }

  // `n` thousandths written with `k` decimals; a bare digit when there are none.
  function PrintQuality(n: nat, k: nat): string
    requires Fits(n, k)
  {
    var whole := if n == 1000 then "1" else "0";
    if k == 0 then whole else whole + ("." + Padded(Decimals(n, k), k))
  }

  function Padded(n: nat, k: nat): string {
    if k == 0 then "" else Padded(n / 10, k - 1) + [('0' as int + n % 10) as char]
  }

  lemma {:induction false} PaddedNumber(n: nat, k: nat)
    requires n < Pow10(k)
    ensures |Padded(n, k)| == k && AllDigits(Padded(n, k)) && Number(Padded(n, k)) == n
    ensures n == 0 ==> AllZeros(Padded(n, k))
  {
    if k > 0 {
      PaddedNumber(n / 10, k - 1);
      assert Padded(n, k)[..k - 1] == Padded(n / 10, k - 1);
    }
  }

  lemma DecimalsMean(n: nat, k: nat)
    requires Fits(n, k)
    ensures Decimals(n, k) < Pow10(k) && Decimals(n, k) * Pow10(3 - k) == n % 1000
  {
    assert Pow10(0) == 1 && Pow10(1) == 10 && Pow10(2) == 100 && Pow10(3) == 1000;
  }

  lemma DecimalIsSplit(whole: string, digits: string)
    requires |whole| == 1 && whole[0] != '.'
    ensures SplitOnce(whole + ("." + digits)) == (whole, digits)
  {
    var s := "." + digits;
    IndexOfSkips('.', whole, s);
    assert IndexOf('.', s) == Some(0);
    assert (whole + s)[..1] == whole && (whole + s)[2..] == s[1..] == digits;
  }

  lemma DecimalIsParsed(whole: string, digits: string)
    requires (whole == "0" && AllDigits(digits)) || (whole == "1" && AllZeros(digits))
    requires |digits| <= 3
    ensures var q := ParseQuality(whole + ("." + digits));
            q.Some? && q.value as int == if whole == "0" then Number(digits) * Pow10(3 - |digits|) else 1000
  {
    DecimalIsSplit(whole, digits);
    SmallNumber(digits);
  }

  lemma DigitIsParsed(whole: string)
    requires whole == "0" || whole == "1"
    ensures ParseQuality(whole) == if whole == "0" then Some(0) else Some(1000)
  {
    SplitQvalue(whole);
  }

  lemma DecimalsAreParsed(n: nat, k: nat)
    requires Fits(n, k) && k > 0
    ensures var q := ParseQuality((if n == 1000 then "1" else "0") + ("." + Padded(Decimals(n, k), k)));
            q.Some? && q.value as int == n
  {
    DecimalsMean(n, k);
    PaddedNumber(Decimals(n, k), k);
    if n == 1000 {
      DecimalIsParsed("1", Padded(Decimals(n, k), k));
    } else {
      ThousandthsAreParsed(n, k, Padded(Decimals(n, k), k));
    }
  }

  lemma ThousandthsAreParsed(n: nat, k: nat, digits: string)
    requires 0 < k <= 3 && |digits| == k && AllDigits(digits) && Number(digits) * Pow10(3 - k) == n
    ensures var q := ParseQuality("0" + ("." + digits)); q.Some? && q.value as int == n
  {
    DecimalIsParsed("0", digits);
  }

  /** Parsing inverts printing with any number of decimals that loses nothing. */
  lemma ParseInvertsPrint(n: nat, k: nat)
    requires Fits(n, k)
    ensures var q := ParseQuality(PrintQuality(n, k)); q.Some? && q.value as int == n
  {
    if k == 0 {
      DigitIsParsed(if n == 1000 then "1" else "0");
    } else {
      DecimalsAreParsed(n, k);
    }
  }

  /******* The fold *******/

  // A parsed media range: its type without parameters and its q parameter.
  datatype MediaRange = MediaRange(essence: string, q: Option<string>)

  datatype RankedRange = RankedRange(essence: string, quality: u16, order: nat)

  datatype Preference = Preference(quality: u16, order: nat)

  type Naming = string -> bool

  predicate NamesActivityPub(essence: string) {
    essence == "application/activity+json" || essence == "application/ld+json" || essence == "application/json"
  }

  predicate NamesHtml(essence: string) {
    essence == "text/html" || essence == "application/xhtml+xml"
  }

  function QualityOf(range: MediaRange): Option<u16> {
    if range.q.None? then Some(1000) else ParseQuality(range.q.value)
  }

  // The ranges of positive quality with their positions in the header.
  function Ranked(ranges: seq<MediaRange>): seq<RankedRange> {
    if ranges == [] then []
    else
      var n := |ranges| - 1;
      var before, quality := Ranked(ranges[..n]), QualityOf(ranges[n]);
      if quality.Some? && quality.value > 0 then before + [RankedRange(ranges[n].essence, quality.value, n)] else before
  }

  predicate Prefers(left: Preference, right: Preference) {
    left.quality > right.quality || (left.quality == right.quality && left.order < right.order)
  }

  function Rank(r: RankedRange): Preference {
    Preference(r.quality, r.order)
  }

  function Candidates(names: Naming, ranges: seq<RankedRange>): seq<Preference> {
    if ranges == [] then []
    else
      var n := |ranges| - 1;
      Candidates(names, ranges[..n]) + if names(ranges[n].essence) then [Rank(ranges[n])] else []
  }

  // `reduce`: the current choice stays unless the candidate is preferred to it.
  function Reduce(candidates: seq<Preference>): Option<Preference> {
    if candidates == [] then None
    else
      var n := |candidates| - 1;
      match Reduce(candidates[..n])
      case None => Some(candidates[n])
      case Some(current) => Some(if Prefers(candidates[n], current) then candidates[n] else current)
  }

  function Preferred(names: Naming, ranges: seq<RankedRange>): Option<Preference> {
    Reduce(Candidates(names, ranges))
  }

  predicate AcceptsActivityPub(ranges: seq<MediaRange>) {
    var ranked := Ranked(ranges);
    match (Preferred(NamesActivityPub, ranked), Preferred(NamesHtml, ranked))
    case (Some(activityPub), Some(html)) => Prefers(activityPub, html)
    case (Some(_), None) => true
    case _ => false
  }

  lemma {:induction false} ReduceIsBest(candidates: seq<Preference>)
    ensures Reduce(candidates).None? <==> candidates == []
    ensures Reduce(candidates).Some? ==>
              && Reduce(candidates).value in candidates
              && forall c | c in candidates :: c == Reduce(candidates).value || Prefers(Reduce(candidates).value, c)
  {
    if candidates != [] {
      var n := |candidates| - 1;
      ReduceIsBest(candidates[..n]);
      assert candidates == candidates[..n] + [candidates[n]];
    }
  }

  ghost predicate IsCandidate(names: Naming, ranges: seq<RankedRange>, p: Preference) {
    exists r :: r in ranges && names(r.essence) && Rank(r) == p
  }

  lemma {:induction false} CandidateMembers(names: Naming, ranges: seq<RankedRange>, p: Preference)
    ensures p in Candidates(names, ranges) <==> IsCandidate(names, ranges, p)
  {
    if ranges != [] {
      var n := |ranges| - 1;
      CandidateMembers(names, ranges[..n], p);
      assert ranges == ranges[..n] + [ranges[n]];
    }
  }

  /** The fold yields the one candidate that is preferred to all others, whatever the order of the ranges. */
  lemma PreferredIsUniqueBest(names: Naming, ranges: seq<RankedRange>, p: Preference)
    ensures Preferred(names, ranges) == Some(p) <==>
            IsCandidate(names, ranges, p) && forall c | IsCandidate(names, ranges, c) :: c == p || Prefers(p, c)
    ensures Preferred(names, ranges).None? <==> forall r | r in ranges :: !names(r.essence)
  {
    var candidates := Candidates(names, ranges);
    ReduceIsBest(candidates);
    forall c ensures c in candidates <==> IsCandidate(names, ranges, c) {
      CandidateMembers(names, ranges, c);
    }
    assert forall r | r in ranges && names(r.essence) :: IsCandidate(names, ranges, Rank(r));
    if candidates != [] {
      assert IsCandidate(names, ranges, candidates[0]);
    }
  }

  /******* The fold refines a stable sort *******/

  // Sorted by descending quality, and as in the header among equal qualities.
  ghost predicate IsStableSort(sorted: seq<RankedRange>, ranges: seq<RankedRange>) {
    multiset(sorted) == multiset(ranges) && Descends(sorted)
  }

  predicate Descends(sorted: seq<RankedRange>) {
    forall i, j | 0 <= i < j < |sorted| :: Prefers(Rank(sorted[i]), Rank(sorted[j]))
  }

  function StableSort(ranges: seq<RankedRange>): seq<RankedRange> {
    if ranges == [] then [] else Insert(StableSort(ranges[..|ranges| - 1]), ranges[|ranges| - 1])
  }

  // Behind everything of at least the same quality.
  function Insert(sorted: seq<RankedRange>, r: RankedRange): seq<RankedRange> {
    if sorted == [] || sorted[|sorted| - 1].quality >= r.quality then sorted + [r]
    else Insert(sorted[..|sorted| - 1], r) + [sorted[|sorted| - 1]]
  }

  lemma {:induction false} InsertPermutes(sorted: seq<RankedRange>, r: RankedRange)
    ensures multiset(Insert(sorted, r)) == multiset(sorted) + multiset{r}
  {
    if sorted != [] {
      var before, last := sorted[..|sorted| - 1], sorted[|sorted| - 1];
      InsertPermutes(before, r);
      assert sorted == before + [last];
    }
  }

  lemma {:induction false} InsertDescends(sorted: seq<RankedRange>, r: RankedRange)
    requires Descends(sorted) && forall s | s in sorted :: s.order < r.order
    ensures Descends(Insert(sorted, r))
  {
    if sorted != [] {
      var before, last := sorted[..|sorted| - 1], sorted[|sorted| - 1];
      if last.quality < r.quality {
        InsertDescends(before, r);
        var inserted := Insert(before, r);
        InsertPermutes(before, r);
        forall i | 0 <= i < |inserted| ensures Prefers(Rank(inserted[i]), Rank(last)) {
          InsertedWasThere(before, inserted[i], r);
        }
      }
    }
  }

  lemma InsertedWasThere(sorted: seq<RankedRange>, s: RankedRange, r: RankedRange)
    requires s in Insert(sorted, r)
    ensures s == r || s in sorted
  {
    InsertPermutes(sorted, r);
    assert s in multiset(Insert(sorted, r));
  }

  lemma {:induction false} RankedOrders(ranges: seq<MediaRange>)
    ensures forall r | r in Ranked(ranges) :: r.order < |ranges| && r.quality > 0
    ensures forall i, j | 0 <= i < j < |Ranked(ranges)| :: Ranked(ranges)[i].order < Ranked(ranges)[j].order
  {
    if ranges != [] {
      RankedOrders(ranges[..|ranges| - 1]);
    }
  }

  lemma {:induction false} SortIsStable(ranges: seq<RankedRange>)
    requires forall i, j | 0 <= i < j < |ranges| :: ranges[i].order < ranges[j].order
    ensures IsStableSort(StableSort(ranges), ranges)
  {
    if ranges != [] {
      var n := |ranges| - 1;
      var before := ranges[..n];
      SortIsStable(before);
      forall s | s in StableSort(before) ensures s.order < ranges[n].order {
        assert s in multiset(before);
      }
      InsertDescends(StableSort(before), ranges[n]);
      InsertPermutes(StableSort(before), ranges[n]);
      assert ranges == before + [ranges[n]];
    }
  }

  predicate NamesEither(essence: string) {
    NamesActivityPub(essence) || NamesHtml(essence)
  }

  lemma NamesAreDisjoint(essence: string)
    ensures !(NamesActivityPub(essence) && NamesHtml(essence))
  {
    assert |"text/html"| == 9 && |"application/xhtml+xml"| == 21;
    assert |"application/activity+json"| == 25 && |"application/ld+json"| == 19 && |"application/json"| == 16;
  }

  // Number `i` is the first range of the list that names a type of either kind.
  predicate IsFirstNaming(sorted: seq<RankedRange>, i: int) {
    0 <= i < |sorted| && NamesEither(sorted[i].essence) && forall j | 0 <= j < i :: !NamesEither(sorted[j].essence)
  }

  // The first range of the sorted list that has a name is the preferred one among those with the name.
  lemma FirstIsPreferred(names: Naming, ranges: seq<RankedRange>, sorted: seq<RankedRange>, i: int)
    requires IsStableSort(sorted, ranges) && 0 <= i < |sorted| && names(sorted[i].essence)
    requires forall j | 0 <= j < i :: !names(sorted[j].essence)
    ensures Preferred(names, ranges) == Some(Rank(sorted[i]))
  {
    var p := Rank(sorted[i]);
    assert sorted[i] in multiset(sorted);
    assert IsCandidate(names, ranges, p);
    forall c | IsCandidate(names, ranges, c) ensures c == p || Prefers(p, c) {
      var r :| r in ranges && names(r.essence) && Rank(r) == c;
      assert r in multiset(ranges);
      var j :| 0 <= j < |sorted| && sorted[j] == r;
    }
    PreferredIsUniqueBest(names, ranges, p);
  }

  // What comes later in the sorted list is preferred less.
  lemma LaterIsWorse(names: Naming, ranges: seq<RankedRange>, sorted: seq<RankedRange>, i: int)
    requires IsStableSort(sorted, ranges) && 0 <= i < |sorted| && forall j | 0 <= j <= i :: !names(sorted[j].essence)
    ensures Preferred(names, ranges).Some? ==> Prefers(Rank(sorted[i]), Preferred(names, ranges).value)
  {
    if Preferred(names, ranges).Some? {
      var p := Preferred(names, ranges).value;
      PreferredIsUniqueBest(names, ranges, p);
      var r :| r in ranges && names(r.essence) && Rank(r) == p;
      assert r in multiset(ranges);
      var j :| 0 <= j < |sorted| && sorted[j] == r;
    }
  }

  /**
   ActivityPub is chosen exactly when, in the stable sort of the ranges of positive quality by
   descending quality, the first range that names an ActivityPub or HTML type names an ActivityPub type.
   */
  lemma NegotiationRefinesSort(ranges: seq<MediaRange>)
    ensures var sorted := StableSort(Ranked(ranges));
            && IsStableSort(sorted, Ranked(ranges))
            && (AcceptsActivityPub(ranges) <==>
                  exists i ::
                    && IsFirstNaming(sorted, i)
                    && sorted[i].essence in {"application/activity+json", "application/ld+json", "application/json"})
  {
    RankedOrders(ranges);
    SortIsStable(Ranked(ranges));
    FoldAgreesWithSort(ranges, StableSort(Ranked(ranges)));
  }

  lemma FoldAgreesWithSort(ranges: seq<MediaRange>, sorted: seq<RankedRange>)
    requires IsStableSort(sorted, Ranked(ranges))
    ensures AcceptsActivityPub(ranges) <==> exists i :: IsFirstNaming(sorted, i) && NamesActivityPub(sorted[i].essence)
  {
    var ranked := Ranked(ranges);
    if i :| IsFirstNaming(sorted, i) {
      NamesAreDisjoint(sorted[i].essence);
      if NamesActivityPub(sorted[i].essence) {
        FirstIsPreferred(NamesActivityPub, ranked, sorted, i);
        LaterIsWorse(NamesHtml, ranked, sorted, i);
      } else {
        FirstIsPreferred(NamesHtml, ranked, sorted, i);
        LaterIsWorse(NamesActivityPub, ranked, sorted, i);
      }
    } else {
      NoneIsNamed(sorted, |sorted|);
      forall r | r in ranked ensures !NamesActivityPub(r.essence) {
        assert r in multiset(ranked);
        var j :| 0 <= j < |sorted| && sorted[j] == r;
      }
      PreferredIsUniqueBest(NamesActivityPub, ranked, Preference(0, 0));
    }
  }

  lemma {:induction false} NoneIsNamed(sorted: seq<RankedRange>, n: nat)
    requires n <= |sorted| && forall i :: !IsFirstNaming(sorted, i)
    ensures forall j | 0 <= j < n :: !NamesEither(sorted[j].essence)
  {
    if n > 0 {
      NoneIsNamed(sorted, n - 1);
      assert !IsFirstNaming(sorted, n - 1);
    }
  }

  /** The ranges that take part: those of positive quality, where a range without q has quality 1000. */
  lemma {:induction false} RankedMeans(ranges: seq<MediaRange>, r: RankedRange)
    ensures r in Ranked(ranges) <==>
            && r.order < |ranges| && ranges[r.order].essence == r.essence && r.quality > 0
            && match ranges[r.order].q
               case None => r.quality == 1000
               case Some(text) => IsQvalue(text) && r.quality as int as real == 1000.0 * QvalueNumber(text)
  {
    if ranges != [] {
      var n := |ranges| - 1;
      RankedMeans(ranges[..n], r);
      match ranges[n].q {
        case None =>
        case Some(text) => QualityLanguage(text);
      }
    }
  }

  /** The names that take part. */
  lemma NamingMeans(essence: string)
    ensures NamesActivityPub(essence) <==>
            essence in {"application/activity+json", "application/ld+json", "application/json"}
    ensures NamesHtml(essence) <==> essence in {"text/html", "application/xhtml+xml"}
  {
  }
}
