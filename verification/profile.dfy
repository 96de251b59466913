/** What the profile page derives from the user (pages/Profile.tsx). */
module Profile {
  import opened Wrappers
  import opened Types
  import opened Text
  import Constants
  import Catalog

  const ReferralPrefix: string := "NCP"

  function Min(a: int, b: int): int {
    if a < b then a else b
  }

  /** `NCP${user.id.toUpperCase().substring(0, 6)}`. */
  function ReferralCode(id: string): (r: string)
    ensures |r| == |ReferralPrefix| + Min(6, |id|)
    ensures r[..|ReferralPrefix|] == ReferralPrefix
    ensures r[|ReferralPrefix|..] == ToUpper(id[..Min(6, |id|)])
  {
    ToUpperPrefix(id, Min(6, |id|));
    ReferralPrefix + ToUpper(id)[..Min(6, |id|)]
  }

  /** Only the first six characters count, and their case does not. */
  lemma ReferralCodeDependsOnPrefix(a: string, b: string)
    requires Min(6, |a|) == Min(6, |b|)
    requires forall i :: 0 <= i < Min(6, |a|) ==> UpperChar(a[i]) == UpperChar(b[i])
    ensures ReferralCode(a) == ReferralCode(b)
  {
  }

  /** The profile badge reads the built-in catalog, not the admin-edited
      one: tiers 1..11 name their built-in entry, anything else none. */
  function ProfileLevel(u: User): (r: Option<VipLevel>)
    ensures u.activeVip.Some? && 1 <= u.activeVip.value <= 11 ==> r == Some(Constants.VipData[u.activeVip.value - 1])
    ensures !(u.activeVip.Some? && 1 <= u.activeVip.value <= 11) ==> r.None?
  {
    Constants.VipDataLevels();
    if u.activeVip.Some? && 1 <= u.activeVip.value <= 11 then
      Catalog.FindLevelUnique(Constants.VipData, u.activeVip.value - 1);
      Catalog.FindLevel(Constants.VipData, u.activeVip)
    else
      Catalog.FindLevel(Constants.VipData, u.activeVip)
  }
}
