/** The search and price filter of the pitch listing in app/pitches/page.tsx: a pitch
    is listed when its name or location contains the query, ignoring case, and its
    price label falls in the chosen band. */
module PitchSearch {
  import opened Options
  import JsNumber

  /** A listed pitch. The rating is kept in tenths (4.8 is 48); the price is the label
      shown to the user, such as "£60/hour". */
  datatype Pitch = Pitch(
    id: string,
    name: string,
    location: string,
    ratingTenths: nat,
    price: string,
    features: seq<string>,
    image: string)

  /** The bound between the "low" and "high" price bands, per hour. */
  const PriceThreshold: int := 60

  function LowerChar(c: char): char {
    if 'A' <= c <= 'Z' then (c as int - 'A' as int + 'a' as int) as char else c
  }

  /** `toLowerCase`, on ASCII letters. */
  function Lower(s: string): (r: string)
    ensures |r| == |s|
    ensures forall i :: 0 <= i < |s| ==> r[i] == LowerChar(s[i])
  {
    if s == [] then [] else [LowerChar(s[0])] + Lower(s[1..])
  }

  /** `needle` occurs in `haystack` starting at position `i`. */
  predicate OccursAt(haystack: string, needle: string, i: int) {
    0 <= i && i + |needle| <= |haystack| && haystack[i..i + |needle|] == needle
  }

  /** `haystack.includes(needle)`. */
  function Includes(haystack: string, needle: string): (r: bool)
    ensures r <==> exists i :: OccursAt(haystack, needle, i)
    decreases |haystack|
  {
    if |needle| > |haystack| then false
    else if haystack[..|needle|] == needle then assert OccursAt(haystack, needle, 0); true
    else
      var r := Includes(haystack[1..], needle);
      assert forall i :: OccursAt(haystack[1..], needle, i) ==> OccursAt(haystack, needle, i + 1);
      assert forall i :: OccursAt(haystack, needle, i) && i > 0 ==> OccursAt(haystack[1..], needle, i - 1);
      r
  }

  /** The search test: the lower-cased query occurs in the lower-cased name or location. */
  predicate MatchesSearch(p: Pitch, query: string) {
    Includes(Lower(p.name), Lower(query)) || Includes(Lower(p.location), Lower(query))
  }

  predicate IsAsciiDigit(c: char) {
    '0' <= c <= '9'
  }

  /** `label.replace(/[^0-9]/g, "")`: the ASCII digits of the label, in order. */
  function ExtractDigits(s: string): (r: string)
    ensures |r| <= |s|
    ensures forall i :: 0 <= i < |r| ==> IsAsciiDigit(r[i])
    ensures r == [] <==> forall i :: 0 <= i < |s| ==> !IsAsciiDigit(s[i])
  {
    if s == [] then []
    else if IsAsciiDigit(s[0]) then [s[0]] + ExtractDigits(s[1..])
    else
      assert forall i :: 0 < i < |s| ==> s[i] == s[1..][i - 1];
      ExtractDigits(s[1..])
  }

  /** The hourly price a label denotes: `parseInt` of its digits, `NaN` without any. */
  function PriceValue(priceLabel: string): Option<int> {
    JsNumber.ParseInt(ExtractDigits(priceLabel))
  }

  /** The price test. "all" admits every pitch, "low" a price of at most 60, and any other
      band a price above 60. A `NaN` price fails both comparisons. */
  predicate MatchesPrice(p: Pitch, band: string) {
    if band == "all" then true
    else match PriceValue(p.price)
      case None => false
      case Some(n) => if band == "low" then n <= PriceThreshold else n > PriceThreshold
  }

  predicate Keep(p: Pitch, query: string, band: string) {
    MatchesSearch(p, query) && MatchesPrice(p, band)
  }

  /** `Array.prototype.filter`: the elements that `keep` admits, in their order. */
  function Select<T>(s: seq<T>, keep: T -> bool): seq<T>
    decreases |s|
  {
    if s == [] then []
    else if keep(s[0]) then [s[0]] + Select(s[1..], keep)
    else Select(s[1..], keep)
  }

  /** The listing's `filteredPitches`: the pitches that match both the search and the
      price band. */
  function Filter(pitches: seq<Pitch>, query: string, band: string): seq<Pitch> {
    Select(pitches, p => Keep(p, query, band))
  }

  // ---------------------------------------------------------------------------
  // The characters and numbers

  /** Lower-casing twice is lower-casing once. */
  lemma {:induction false} LowerIdempotent(s: string)
    ensures Lower(Lower(s)) == Lower(s)
  {
    if s != [] {
      LowerIdempotent(s[1..]);
      assert Lower(s)[1..] == Lower(s[1..]);
    }
  }

  /** The search ignores the case of the query: a query and its lower-cased form
      match the same pitches. */
  lemma SearchIgnoresQueryCase(p: Pitch, query: string)
    ensures MatchesSearch(p, query) == MatchesSearch(p, Lower(query))
  {
    LowerIdempotent(query);
  }

  /** The empty query matches every pitch. */
  lemma EmptyQueryMatches(p: Pitch)
    ensures MatchesSearch(p, "")
  {
    assert OccursAt(Lower(p.name), Lower(""), 0);
  }

  /** Digit extraction works piece by piece: the digits of a concatenation are the
      digits of each part, and a single character keeps itself exactly when it is a digit. */
  lemma {:induction false} ExtractDigitsConcat(a: string, b: string)
    ensures ExtractDigits(a + b) == ExtractDigits(a) + ExtractDigits(b)
    ensures |a| == 1 ==> ExtractDigits(a) == (if IsAsciiDigit(a[0]) then a else [])
  {
    if a != [] {
      assert (a + b)[0] == a[0] && (a + b)[1..] == a[1..] + b;
      ExtractDigitsConcat(a[1..], b);
    } else {
      assert a + b == b;
    }
  }

  /** The price is the decimal number the label's digits spell, or `NaN` when the label
      has no digit at all. */
  lemma PriceValueOfLabel(priceLabel: string)
    ensures ExtractDigits(priceLabel) != [] ==>
      JsNumber.AllDigits(ExtractDigits(priceLabel), 10) &&
      PriceValue(priceLabel) == Some(JsNumber.ValueOf(ExtractDigits(priceLabel), 10))
    ensures ExtractDigits(priceLabel) == [] <==> PriceValue(priceLabel).None?
  {
    var z := ExtractDigits(priceLabel);
    assert JsNumber.AllDigits(z, 10);
    if z != [] {
      JsNumber.ParseIntOfDigits(z);
    }
  }

  /** A label made of any text around a price written in decimal, with no other digit,
      denotes that price. */
  lemma PriceValueOfDecimalLabel(prefix: string, n: nat, suffix: string)
    requires forall i :: 0 <= i < |prefix| ==> !IsAsciiDigit(prefix[i])
    requires forall i :: 0 <= i < |suffix| ==> !IsAsciiDigit(suffix[i])
    ensures PriceValue(prefix + JsNumber.Decimal(n) + suffix) == Some(n)
  {
    var d := JsNumber.Decimal(n);
    assert ExtractDigits(prefix) == [];
    assert ExtractDigits(suffix) == [];
    ExtractDigitsOfDigits(d);
    ExtractDigitsConcat(prefix, d);
    assert ExtractDigits(prefix + d) == d;
    ExtractDigitsConcat(prefix + d, suffix);
    assert ExtractDigits(prefix + d + suffix) == d;
    JsNumber.ParseIntOfDecimal(n);
  }

  lemma {:induction false} ExtractDigitsOfDigits(s: string)
    requires JsNumber.AllDigits(s, 10)
    ensures ExtractDigits(s) == s
  {
    if s != [] {
      assert IsAsciiDigit(s[0]);
      ExtractDigitsOfDigits(s[1..]);
    }
  }

  // ---------------------------------------------------------------------------
  // Filtering a sequence

  /** An element is selected exactly when it occurs and `keep` admits it. */
  lemma {:induction false} SelectMembers<T>(s: seq<T>, keep: T -> bool, x: T)
    ensures x in Select(s, keep) <==> x in s && keep(x)
    decreases |s|
  {
    if s != [] {
      SelectMembers(s[1..], keep, x);
      assert x in s <==> x == s[0] || x in s[1..];
    }
  }

  /** The positions, counted from `base`, of the elements that `keep` admits. */
  function KeptFrom<T>(s: seq<T>, keep: T -> bool, base: nat): (r: seq<nat>)
    ensures forall k :: 0 <= k < |r| ==> base <= r[k] < base + |s|
    decreases |s|
  {
    if s == [] then []
    else if keep(s[0]) then [base] + KeptFrom(s[1..], keep, base + 1)
    else KeptFrom(s[1..], keep, base + 1)
  }

  /** The k-th selected element is the element at the k-th kept position. */
  lemma {:induction false} SelectAt<T>(s: seq<T>, keep: T -> bool, base: nat)
    ensures |Select(s, keep)| == |KeptFrom(s, keep, base)|
    ensures forall k :: 0 <= k < |Select(s, keep)| ==>
      Select(s, keep)[k] == s[KeptFrom(s, keep, base)[k] - base]
    decreases |s|
  {
    if s != [] {
      SelectAt(s[1..], keep, base + 1);
      var r, ks := Select(s[1..], keep), KeptFrom(s[1..], keep, base + 1);
      var r', ks' := Select(s, keep), KeptFrom(s, keep, base);
      forall k | 0 <= k < |r'| ensures r'[k] == s[ks'[k] - base] {
        var j := if keep(s[0]) then k - 1 else k;
        if j >= 0 {
          assert r'[k] == r[j] && ks'[k] == ks[j];
          assert s[1..][ks[j] - (base + 1)] == s[ks[j] - base];
        }
      }
    }
  }

  /** The kept positions increase strictly. */
  lemma {:induction false} KeptIncreasing<T>(s: seq<T>, keep: T -> bool, base: nat)
    ensures forall k, l :: 0 <= k < l < |KeptFrom(s, keep, base)| ==>
      KeptFrom(s, keep, base)[k] < KeptFrom(s, keep, base)[l]
    decreases |s|
  {
    if s != [] {
      KeptIncreasing(s[1..], keep, base + 1);
    }
  }

  /** A position is kept exactly when `keep` admits the element there. */
  lemma {:induction false} KeptExactly<T>(s: seq<T>, keep: T -> bool, base: nat)
    ensures forall i :: 0 <= i < |s| ==> (base + i in KeptFrom(s, keep, base) <==> keep(s[i]))
    decreases |s|
  {
    if s != [] {
      KeptExactly(s[1..], keep, base + 1);
      var ks := KeptFrom(s[1..], keep, base + 1);
      assert base !in ks;
      forall i | 0 < i < |s| ensures base + i in KeptFrom(s, keep, base) <==> keep(s[i]) {
        assert s[i] == s[1..][i - 1];
        assert base + i == (base + 1) + (i - 1);
      }
    }
  }

  /** Selecting from a selection with the same test changes nothing. */
  lemma {:induction false} SelectIdempotent<T>(s: seq<T>, keep: T -> bool)
    ensures Select(Select(s, keep), keep) == Select(s, keep)
    decreases |s|
  {
    if s != [] {
      SelectIdempotent(s[1..], keep);
      if keep(s[0]) {
        var r := [s[0]] + Select(s[1..], keep);
        assert r[0] == s[0] && r[1..] == Select(s[1..], keep);
      }
    }
  }

  /** Two tests that agree on every element select the same elements. */
  lemma {:induction false} SelectAgrees<T>(s: seq<T>, keep: T -> bool, keep': T -> bool)
    requires forall i :: 0 <= i < |s| ==> keep(s[i]) == keep'(s[i])
    ensures Select(s, keep) == Select(s, keep')
    decreases |s|
  {
    if s != [] {
      assert keep(s[0]) == keep'(s[0]);
      assert forall i :: 0 < i < |s| ==> s[1..][i - 1] == s[i];
      SelectAgrees(s[1..], keep, keep');
    }
  }

  /** A test that admits every element selects the whole sequence. */
  lemma {:induction false} SelectAll<T>(s: seq<T>, keep: T -> bool)
    requires forall i :: 0 <= i < |s| ==> keep(s[i])
    ensures Select(s, keep) == s
    decreases |s|
  {
    if s != [] {
      assert keep(s[0]);
      assert forall i :: 0 < i < |s| ==> s[1..][i - 1] == s[i];
      SelectAll(s[1..], keep);
    }
  }

  /** Two tests that never both admit an element, and that together admit what a third
      test admits, split the third test's selection between them. */
  lemma {:induction false} SelectSplit<T>(s: seq<T>, keep: T -> bool, left: T -> bool, right: T -> bool)
    requires forall i :: 0 <= i < |s| ==> !(left(s[i]) && right(s[i]))
    requires forall i :: 0 <= i < |s| ==> (left(s[i]) || right(s[i]) <==> keep(s[i]))
    ensures |Select(s, left)| + |Select(s, right)| == |Select(s, keep)|
    decreases |s|
  {
    if s != [] {
      assert !(left(s[0]) && right(s[0])) && (left(s[0]) || right(s[0]) <==> keep(s[0]));
      assert forall i :: 0 < i < |s| ==> s[1..][i - 1] == s[i];
      SelectSplit(s[1..], keep, left, right);
    }
  }

  // ---------------------------------------------------------------------------
  // The pitch filter

  /** The indices of the pitches that pass both tests. */
  function KeptIndices(pitches: seq<Pitch>, query: string, band: string): seq<nat> {
    KeptFrom(pitches, p => Keep(p, query, band), 0)
  }

  /** A pitch is listed exactly when it is in the list and passes both tests. */
  lemma FilterMembers(pitches: seq<Pitch>, query: string, band: string, p: Pitch)
    ensures p in Filter(pitches, query, band) <==> p in pitches && Keep(p, query, band)
  {
    SelectMembers(pitches, q => Keep(q, query, band), p);
  }

  /** The result is the subsequence of the list at exactly the indices of the pitches
      that pass: those indices increase, so the list's order is kept. */
  lemma FilterIsOrderedSelection(pitches: seq<Pitch>, query: string, band: string)
    ensures |Filter(pitches, query, band)| == |KeptIndices(pitches, query, band)|
    ensures forall k :: 0 <= k < |Filter(pitches, query, band)| ==>
      KeptIndices(pitches, query, band)[k] < |pitches| &&
      Filter(pitches, query, band)[k] == pitches[KeptIndices(pitches, query, band)[k]]
    ensures forall k, l :: 0 <= k < l < |KeptIndices(pitches, query, band)| ==>
      KeptIndices(pitches, query, band)[k] < KeptIndices(pitches, query, band)[l]
    ensures forall j :: 0 <= j < |pitches| ==>
      (j in KeptIndices(pitches, query, band) <==> Keep(pitches[j], query, band))
  {
    var keep := p => Keep(p, query, band);
    SelectAt(pitches, keep, 0);
    KeptIncreasing(pitches, keep, 0);
    KeptExactly(pitches, keep, 0);
  }

  /** Filtering the result again with the same query and band changes nothing. */
  lemma FilterIdempotent(pitches: seq<Pitch>, query: string, band: string)
    ensures Filter(Filter(pitches, query, band), query, band) == Filter(pitches, query, band)
  {
    SelectIdempotent(pitches, p => Keep(p, query, band));
  }

  /** The empty query with the "all" band lists every pitch. */
  lemma FilterEverything(pitches: seq<Pitch>)
    ensures Filter(pitches, "", "all") == pitches
  {
    forall i | 0 <= i < |pitches| ensures Keep(pitches[i], "", "all") {
      EmptyQueryMatches(pitches[i]);
    }
    SelectAll(pitches, p => Keep(p, "", "all"));
  }

  /** "low" and "high" split the pitches with a price: each such pitch that matches the
      search is kept by exactly one of them, and a pitch whose label has no digit by
      neither. Every band other than "all" and "low" behaves as "high". */
  lemma PriceBandsPartition(p: Pitch, query: string, band: string)
    ensures !(Keep(p, query, "low") && Keep(p, query, "high"))
    ensures Keep(p, query, "low") || Keep(p, query, "high") <==>
      MatchesSearch(p, query) && ExtractDigits(p.price) != []
    ensures band != "all" && band != "low" ==> (Keep(p, query, band) <==> Keep(p, query, "high"))
    ensures Keep(p, query, "all") <==> MatchesSearch(p, query)
  {
    PriceValueOfLabel(p.price);
  }

  /** When every label has a digit, the "low" and "high" results together have as many
      pitches as the "all" result. */
  lemma PriceBandsCount(pitches: seq<Pitch>, query: string)
    requires forall i :: 0 <= i < |pitches| ==> ExtractDigits(pitches[i].price) != []
    ensures |Filter(pitches, query, "low")| + |Filter(pitches, query, "high")| == |Filter(pitches, query, "all")|
  {
    forall i | 0 <= i < |pitches|
      ensures !(Keep(pitches[i], query, "low") && Keep(pitches[i], query, "high"))
      ensures Keep(pitches[i], query, "low") || Keep(pitches[i], query, "high") <==> Keep(pitches[i], query, "all")
    {
      PriceBandsPartition(pitches[i], query, "high");
    }
    SelectSplit(pitches, p => Keep(p, query, "all"), p => Keep(p, query, "low"), p => Keep(p, query, "high"));
  }

  /** Any band other than "all" and "low" gives the same result as "high". */
  lemma OtherBandsActAsHigh(pitches: seq<Pitch>, query: string, band: string)
    requires band != "all" && band != "low"
    ensures Filter(pitches, query, band) == Filter(pitches, query, "high")
  {
    forall i | 0 <= i < |pitches| ensures Keep(pitches[i], query, band) == Keep(pitches[i], query, "high") {
      PriceBandsPartition(pitches[i], query, band);
    }
    SelectAgrees(pitches, p => Keep(p, query, band), p => Keep(p, query, "high"));
  }

  // ---------------------------------------------------------------------------
  // The listed pitches

  const CentralStadium: Pitch := Pitch(
    "1", "Central Stadium", "Downtown Sports Complex", 48, "\U{00A3}60/hour",
    ["Floodlights", "Changing Rooms", "Parking"],
    "https://images.unsplash.com/photo-1459865264687-595d652de67e?w=800&auto=format&fit=crop&q=60")

  const RiversideArena: Pitch := Pitch(
    "2", "Riverside Arena", "Riverside Sports Park", 49, "\U{00A3}75/hour",
    ["Premium Turf", "Spectator Seating", "Cafe"],
    "https://images.unsplash.com/photo-1536122985607-4fe00b283652?w=800&auto=format&fit=crop&q=60")

  const EliteTrainingGround: Pitch := Pitch(
    "3", "Elite Training Ground", "Sports Academy", 47, "\U{00A3}55/hour",
    ["Professional Goals", "Training Equipment", "Video Analysis"],
    "https://images.unsplash.com/photo-1551958219-acbc608c6377?w=800&auto=format&fit=crop&q=60")

  const Pitches: seq<Pitch> := [CentralStadium, RiversideArena, EliteTrainingGround]

  /** A label of the form "£<n>/hour" reads as n pounds an hour. */
  lemma HourlyLabel(n: nat)
    ensures PriceValue("\U{00A3}" + JsNumber.Decimal(n) + "/hour") == Some(n)
  {
    var pound, hour := "\U{00A3}", "/hour";
    assert !IsAsciiDigit(pound[0]);
    assert forall i :: 0 <= i < |hour| ==> !IsAsciiDigit(hour[i]);
    PriceValueOfDecimalLabel(pound, n, hour);
  }

  /** "£60/hour", "£75/hour" and "£55/hour" read as 60, 75 and 55 pounds an hour. */
  lemma ListedLabels()
    ensures PriceValue("\U{00A3}60/hour") == Some(60)
    ensures PriceValue("\U{00A3}75/hour") == Some(75)
    ensures PriceValue("\U{00A3}55/hour") == Some(55)
  {
    LabelSixty();
    LabelSeventyFive();
    LabelFiftyFive();
  }

  lemma LabelSixty()
    ensures PriceValue("\U{00A3}60/hour") == Some(60)
  {
    var d := JsNumber.Decimal(60);
    assert d == "60";
    assert "\U{00A3}" + d + "/hour" == "\U{00A3}60/hour";
    HourlyLabel(60);
  }

  lemma LabelSeventyFive()
    ensures PriceValue("\U{00A3}75/hour") == Some(75)
  {
    var d := JsNumber.Decimal(75);
    assert d == "75";
    assert "\U{00A3}" + d + "/hour" == "\U{00A3}75/hour";
    HourlyLabel(75);
  }

  lemma LabelFiftyFive()
    ensures PriceValue("\U{00A3}55/hour") == Some(55)
  {
    var d := JsNumber.Decimal(55);
    assert d == "55";
    assert "\U{00A3}" + d + "/hour" == "\U{00A3}55/hour";
    HourlyLabel(55);
  }

  /** Selecting from three elements keeps each one that the test admits. */
  lemma SelectThree<T>(a: T, b: T, c: T, keep: T -> bool)
    ensures Select([a, b, c], keep) ==
      (if keep(a) then [a] else []) + (if keep(b) then [b] else []) + (if keep(c) then [c] else [])
  {
    assert [a, b, c][1..] == [b, c] && [b, c][1..] == [c] && [c][1..] == [];
    assert Select([c], keep) == (if keep(c) then [c] else []);
    assert Select([b, c], keep) == (if keep(b) then [b] else []) + Select([c], keep);
  }

  /** With the empty query, the band alone decides: "low" keeps a price of at most 60,
      "high" one above 60. */
  lemma EmptyQueryBands(p: Pitch, n: int)
    requires PriceValue(p.price) == Some(n)
    ensures Keep(p, "", "low") <==> n <= PriceThreshold
    ensures Keep(p, "", "high") <==> n > PriceThreshold
  {
    EmptyQueryMatches(p);
  }

  /** For any three pitches priced at 60, 75 and 55 pounds an hour, the empty query
      lists the first and third under "low" and the second under "high". */
  lemma ListedPriceBands(a: Pitch, b: Pitch, c: Pitch)
    requires PriceValue(a.price) == Some(60) && PriceValue(b.price) == Some(75)
    requires PriceValue(c.price) == Some(55)
    ensures Filter([a, b, c], "", "low") == [a, c]
    ensures Filter([a, b, c], "", "high") == [b]
  {
    EmptyQueryBands(a, 60);
    EmptyQueryBands(b, 75);
    EmptyQueryBands(c, 55);
    var low, high := p => Keep(p, "", "low"), p => Keep(p, "", "high");
    assert low(a) && !low(b) && low(c);
    assert !high(a) && high(b) && !high(c);
    assert Filter([a, b, c], "", "low") == Select([a, b, c], low);
    assert Filter([a, b, c], "", "high") == Select([a, b, c], high);
    SelectThree(a, b, c, low);
    SelectThree(a, b, c, high);
  }

  /** The listing itself, filtered by price band with an empty query. */
  lemma ListingPriceBands()
    ensures Filter(Pitches, "", "low") == [CentralStadium, EliteTrainingGround]
    ensures Filter(Pitches, "", "high") == [RiversideArena]
  {
    ListedLabels();
    ListedPriceBands(CentralStadium, RiversideArena, EliteTrainingGround);
  }
}
