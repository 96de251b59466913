/** The static VIP catalog and the Bangla digit transliteration
    (components/constants.tsx). */
module Constants {
  import opened Wrappers
  import opened Types
  import opened Text

  /** The eleven tiers every store starts with. */
  const VipData: seq<VipLevel> := [
    VipLevel(1, "VIP 1", 1000, 200, 1, 200, Some("https://images.unsplash.com/photo-1614850523296-d8c1af93d400?q=80&w=400&auto=format&fit=crop")),
    VipLevel(2, "VIP 2", 5000, 1100, 1, 200, Some("https://images.unsplash.com/photo-1614850523459-c2f4c699c52e?q=80&w=400&auto=format&fit=crop")),
    VipLevel(3, "VIP 3", 15000, 3500, 1, 200, Some("https://images.unsplash.com/photo-1614850523598-81148400c731?q=80&w=400&auto=format&fit=crop")),
    VipLevel(4, "VIP 4", 30000, 7500, 1, 200, Some("https://images.unsplash.com/photo-1614851012101-8378393521d6?q=80&w=400&auto=format&fit=crop")),
    VipLevel(5, "VIP 5", 60000, 15500, 1, 200, Some("https://images.unsplash.com/photo-1557683311-eac922347aa1?q=80&w=400&auto=format&fit=crop")),
    VipLevel(6, "VIP 6", 120000, 33000, 1, 200, Some("https://images.unsplash.com/photo-1557683316-973673baf926?q=80&w=400&auto=format&fit=crop")),
    VipLevel(7, "VIP 7", 240000, 70000, 1, 200, Some("https://images.unsplash.com/photo-1557682250-33bd709cbe85?q=80&w=400&auto=format&fit=crop")),
    VipLevel(8, "VIP 8", 480000, 160000, 1, 200, Some("https://images.unsplash.com/photo-1557682224-5b8590cd9ec5?q=80&w=400&auto=format&fit=crop")),
    VipLevel(9, "VIP 9", 960000, 380000, 1, 200, Some("https://images.unsplash.com/photo-1557682260-96773eb01377?q=80&w=400&auto=format&fit=crop")),
    VipLevel(10, "VIP 10", 1800000, 800000, 1, 200, Some("https://images.unsplash.com/photo-1579546929518-9e396f3cc809?q=80&w=400&auto=format&fit=crop")),
    VipLevel(11, "VIP 11", 3500000, 1500000, 1, 200, Some("https://images.unsplash.com/photo-1579546929662-711aa81148cf?q=80&w=400&auto=format&fit=crop"))
  ]

  /** Tier `i + 1` sits at position `i`: levels run 1..11 without gaps, so
      they are unique and strictly ascending. */
  lemma VipDataLevels()
    ensures |VipData| == 11
    ensures forall i :: 0 <= i < |VipData| ==> VipData[i].level == i + 1
  {
  }

  /** A higher tier costs more and pays more; every tier allows one task a
      day and lasts 200 days. */
  lemma VipDataEconomics()
    ensures forall i, j :: 0 <= i < j < |VipData| ==> VipData[i].price < VipData[j].price
    ensures forall i, j :: 0 <= i < j < |VipData| ==> VipData[i].dailyProfit < VipData[j].dailyProfit
    ensures forall i :: 0 <= i < |VipData| ==> VipData[i].tasksPerDay == 1 && VipData[i].validityDays == 200
    ensures forall i :: 0 <= i < |VipData| ==> 0 < VipData[i].dailyProfit < VipData[i].price
  {
  }

  /** The digits ০..৯ in order, indexed by their value. */
  const BanglaDigits: seq<char> := ['০', '১', '২', '৩', '৪', '৫', '৬', '৭', '৮', '৯']

  const BanglaNumMap: map<char, char> := map[
    '0' := '০', '1' := '১', '2' := '২', '3' := '৩', '4' := '৪',
    '5' := '৫', '6' := '৬', '7' := '৭', '8' := '৮', '9' := '৯'
  ]

  /** The Bangla digits are the ten consecutive code points from U+09E6. */
  lemma BanglaDigitsCodePoints()
    ensures |BanglaDigits| == 10
    ensures forall d :: 0 <= d < 10 ==> BanglaDigits[d] as int == 0x09E6 + d
  {
  }

  /** The lookup table agrees entry for entry with the digit array and is
      keyed by exactly the ten ASCII digits. */
  lemma BanglaMapAgrees()
    ensures forall c :: c in BanglaNumMap <==> IsAsciiDigit(c)
    ensures forall c :: c in BanglaNumMap ==> BanglaNumMap[c] == BanglaDigits[DigitValue(c)]
  {
  }

  predicate IsBanglaDigit(c: char) {
    '০' <= c <= '৯'
  }

  function BanglaChar(c: char): char {
    if IsAsciiDigit(c) then BanglaDigits[DigitValue(c)] else c
  }

  /** `toBanglaNum` on a string: every ASCII digit is replaced by the Bangla
      digit of the same value and every other character is kept. */
  function ToBanglaNum(s: string): (r: string)
    ensures |r| == |s|
    ensures forall i :: 0 <= i < |s| && IsAsciiDigit(s[i]) ==> r[i] == BanglaDigits[DigitValue(s[i])]
    ensures forall i :: 0 <= i < |s| && !IsAsciiDigit(s[i]) ==> r[i] == s[i]
    ensures forall i :: 0 <= i < |r| ==> !IsAsciiDigit(r[i])
  {
    if s == [] then [] else [BanglaChar(s[0])] + ToBanglaNum(s[1..])
  }

  /** `toBanglaNum` on a number: its decimal spelling, transliterated.
      Reading the Bangla digits back gives the spelling, and so the number. */
  function ToBanglaNumber(n: int): (r: string)
    ensures |r| == |IntToString(n)|
    ensures n >= 0 ==> forall i :: 0 <= i < |r| ==> IsBanglaDigit(r[i])
    ensures FromBanglaNum(r) == IntToString(n)
    ensures n >= 0 ==> AllDigits(FromBanglaNum(r)) && DecimalValue(FromBanglaNum(r)) == n
  {
    var s := IntToString(n);
    assert forall i :: 0 <= i < |s| ==> !IsBanglaDigit(s[i]) by {
      if n < 0 {
        assert forall i :: 1 <= i < |s| ==> s[i] == s[1..][i - 1];
      }
    }
    BanglaRoundTrip(s);
    if n >= 0 then DecimalRoundTrip(n); ToBanglaNum(s) else ToBanglaNum(s)
  }

  /** Transliterating twice is the same as once. */
  lemma ToBanglaIdempotent(s: string)
    ensures ToBanglaNum(ToBanglaNum(s)) == ToBanglaNum(s)
  {
  }

  function AsciiChar(c: char): char {
    if IsBanglaDigit(c) then DigitChar(c as int - '০' as int) else c
  }

  /** The reverse transliteration, Bangla digits back to ASCII. */
  function FromBanglaNum(s: string): (r: string)
    ensures |r| == |s|
    ensures forall i :: 0 <= i < |s| ==> r[i] == AsciiChar(s[i])
  {
    if s == [] then [] else [AsciiChar(s[0])] + FromBanglaNum(s[1..])
  }

  /** Transliteration loses nothing on text that had no Bangla digits. */
  lemma BanglaRoundTrip(s: string)
    requires forall i :: 0 <= i < |s| ==> !IsBanglaDigit(s[i])
    ensures FromBanglaNum(ToBanglaNum(s)) == s
  {
    var t := ToBanglaNum(s);
    var r := FromBanglaNum(t);
    forall i | 0 <= i < |s|
      ensures r[i] == s[i]
    {
      if IsAsciiDigit(s[i]) {
        DigitRoundTrip(s[i]);
      }
    }
  }

  lemma DigitRoundTrip(c: char)
    requires IsAsciiDigit(c)
    ensures AsciiChar(BanglaDigits[DigitValue(c)]) == c
  {
  }
}
