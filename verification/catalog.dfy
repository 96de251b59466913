/** Looking up the user's tier, `levels.find(v => v.level === user.active_vip)`,
    the lookup the home, task and profile pages share. */
module Catalog {
  import opened Wrappers
  import opened Types
  import Seqs

  predicate HasLevel(v: VipLevel, activeVip: Option<int>) {
    activeVip == Some(v.level)
  }

  /** The first catalog entry whose level equals the user's tier; none when
      the user holds no tier or no entry carries that level. */
  function FindLevel(levels: seq<VipLevel>, activeVip: Option<int>): (r: Option<VipLevel>)
    ensures r.Some? ==> r.value in levels && activeVip == Some(r.value.level)
    ensures r.None? <==> activeVip.None? || forall i :: 0 <= i < |levels| ==> levels[i].level != activeVip.value
    ensures r.Some? ==> exists i :: 0 <= i < |levels| && levels[i] == r.value &&
                                   forall j :: 0 <= j < i ==> levels[j].level != r.value.level
  {
    Seqs.Find(levels, v => HasLevel(v, activeVip))
  }

  /** In a catalog whose levels are unique, the lookup finds the one entry
      with that level. */
  lemma FindLevelUnique(levels: seq<VipLevel>, i: int)
    requires 0 <= i < |levels|
    requires forall j, k :: 0 <= j < k < |levels| ==> levels[j].level != levels[k].level
    ensures FindLevel(levels, Some(levels[i].level)) == Some(levels[i])
  {
  }
}
