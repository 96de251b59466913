/** The admin console's mutations and queues (pages/AdminPanel.tsx). */
module AdminPanel {
  import opened Wrappers
  import opened Types
  import Seqs
  import Store

  /** `handleSaveSettings`: a minimum that is not a number or is negative is
      refused; anything else, zero included, becomes the new minimum.
      `input` is the parsed field, `None` standing for NaN. */
  function SaveSettings(c: AppConfig, input: Option<int>): (r: Result<AppConfig, Error>)
    ensures r.Failure? <==> input.None? || input.value < 0
    ensures r.Failure? ==> r.error == InvalidNumber
    ensures r.Success? ==> r.value.minWithdrawal == input.value
  {
    if input.None? || input.value < 0 then Failure(InvalidNumber)
    else Success(Store.UpdateAppConfig(c, Store.ConfigPatch(Some(input.value))))
  }

  /** One change made in the tier edit form: only these four fields have
      inputs. */
  datatype VipEdit = Rename(name: string) | Reprice(price: int) | SetDailyProfit(profit: int) | SetImageUrl(url: string)

  /** `setEditingVip({...editingVip, field: value})`: the typed field takes
      the typed value and every other field is kept. */
  function ApplyEdit(v: VipLevel, e: VipEdit): (r: VipLevel)
    ensures r.(name := v.name, price := v.price, dailyProfit := v.dailyProfit, imageUrl := v.imageUrl) == v
    ensures e.Rename? ==> r == v.(name := e.name)
    ensures e.Reprice? ==> r == v.(price := e.price)
    ensures e.SetDailyProfit? ==> r == v.(dailyProfit := e.profit)
    ensures e.SetImageUrl? ==> r == v.(imageUrl := Some(e.url))
  {
    match e
    case Rename(n) => v.(name := n)
    case Reprice(p) => v.(price := p)
    case SetDailyProfit(p) => v.(dailyProfit := p)
    case SetImageUrl(u) => v.(imageUrl := Some(u))
  }

  /** A whole editing session: whatever is typed, the level key, the task
      capacity and the validity stay as they were. */
  function ApplyEdits(v: VipLevel, es: seq<VipEdit>): (r: VipLevel)
    ensures r.level == v.level && r.tasksPerDay == v.tasksPerDay && r.validityDays == v.validityDays
    decreases |es|
  {
    if es == [] then v else ApplyEdits(ApplyEdit(v, es[0]), es[1..])
  }

  /** An edit that keeps price and daily profit non-negative. */
  predicate SoundEdit(e: VipEdit) {
    (e.Reprice? ==> e.price >= 0) && (e.SetDailyProfit? ==> e.profit >= 0)
  }

  /** Edits that never type a negative price or profit keep them non-negative. */
  lemma {:induction false} SoundEditsKeepEconomics(v: VipLevel, es: seq<VipEdit>)
    requires v.price >= 0 && v.dailyProfit >= 0
    requires forall i :: 0 <= i < |es| ==> SoundEdit(es[i])
    ensures ApplyEdits(v, es).price >= 0 && ApplyEdits(v, es).dailyProfit >= 0
    decreases |es|
  {
    if es != [] {
      SoundEditsKeepEconomics(ApplyEdit(v, es[0]), es[1..]);
    }
  }

  /** `vipLevels.map(v => v.level === edited.level ? edited : v)`: every
      position keeps its level. */
  function ReplaceLevel(levels: seq<VipLevel>, edited: VipLevel): (r: seq<VipLevel>)
    ensures |r| == |levels|
    ensures forall i :: 0 <= i < |levels| ==> r[i].level == levels[i].level
    ensures forall i :: 0 <= i < |levels| ==> r[i] == if levels[i].level == edited.level then edited else levels[i]
    ensures (forall i :: 0 <= i < |levels| ==> levels[i].level != edited.level) ==> r == levels
  {
    if levels == [] then []
    else [if levels[0].level == edited.level then edited else levels[0]] + ReplaceLevel(levels[1..], edited)
  }

  /** `handleSaveVIP`: nothing happens when no tier is being edited. */
  function SaveVip(levels: seq<VipLevel>, editing: Option<VipLevel>): (r: seq<VipLevel>)
    ensures editing.None? ==> r == levels
    ensures |r| == |levels| && forall i :: 0 <= i < |levels| ==> r[i].level == levels[i].level
    ensures editing.Some? ==> forall i :: 0 <= i < |levels| ==>
              r[i] == if levels[i].level == editing.value.level then editing.value else levels[i]
  {
    match editing
    case None => levels
    case Some(v) => ReplaceLevel(levels, v)
  }

  /** Saving an edit of a catalog entry replaces that entry and keeps the
      list's length and every position's level. */
  lemma EditKeepsCatalogKeys(levels: seq<VipLevel>, i: int, es: seq<VipEdit>)
    requires 0 <= i < |levels|
    ensures var r := SaveVip(levels, Some(ApplyEdits(levels[i], es)));
            |r| == |levels| && r[i] == ApplyEdits(levels[i], es) &&
            forall j :: 0 <= j < |r| ==> r[j].level == levels[j].level
  {
  }

  /** The withdrawals awaiting review. */
  function PendingWithdrawals(log: seq<Transaction>): (r: seq<Transaction>)
    ensures forall t :: t in r <==> t in log && t.kind == Withdraw && t.status == Pending
    ensures forall t :: multiset(r)[t] == if t.kind == Withdraw && t.status == Pending then multiset(log)[t] else 0
  {
    Seqs.Filter(log, (t: Transaction) => t.kind == Withdraw && t.status == Pending)
  }

  /** The deposits awaiting review. */
  function PendingDeposits(log: seq<Transaction>): (r: seq<Transaction>)
    ensures forall t :: t in r <==> t in log && t.kind == Deposit && t.status == Pending
    ensures forall t :: multiset(r)[t] == if t.kind == Deposit && t.status == Pending then multiset(log)[t] else 0
  {
    Seqs.Filter(log, (t: Transaction) => t.kind == Deposit && t.status == Pending)
  }

  /** The tickets not yet resolved. */
  function OpenSupport(tokens: seq<SupportToken>): (r: seq<SupportToken>)
    ensures forall t :: t in r <==> t in tokens && t.status != Resolved
    ensures forall t :: multiset(r)[t] == if t.status != Resolved then multiset(tokens)[t] else 0
  {
    Seqs.Filter(tokens, (t: SupportToken) => t.status != Resolved)
  }

  /** The one support action the console offers: mark a ticket RESOLVED.
      That ticket leaves the open queue, every other open ticket stays, no
      ticket joins it, and no other ticket is touched. */
  function ResolveToken(tokens: seq<SupportToken>, id: string): (r: seq<SupportToken>)
    ensures |r| == |tokens|
    ensures forall t :: t in OpenSupport(r) ==> t.id != id
    ensures forall t :: t in OpenSupport(tokens) && t.id != id ==> t in OpenSupport(r)
    ensures forall t :: t in OpenSupport(r) ==> t in OpenSupport(tokens)
    ensures forall i :: 0 <= i < |tokens| ==>
              r[i] == if tokens[i].id == id then tokens[i].(status := Resolved) else tokens[i]
  {
    var r := Store.UpdateSupportToken(tokens, id, Resolved);
    assert forall t :: t in tokens && t.id != id ==> t in r by {
      forall t | t in tokens && t.id != id ensures t in r {
        var i :| 0 <= i < |tokens| && tokens[i] == t;
        assert r[i] == t;
      }
    }
    r
  }
}
