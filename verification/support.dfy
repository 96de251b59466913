/** Filing and listing support tickets (pages/Support.tsx). */
module Support {
  import opened Wrappers
  import opened Types
  import Seqs
  import Store

  /** `tokens.filter(t => t.user_id === user.id)`. */
  function UserTokens(tokens: seq<SupportToken>, userId: string): (r: seq<SupportToken>)
    ensures forall t :: t in r <==> t in tokens && t.userId == userId
    ensures forall t :: multiset(r)[t] == if t.userId == userId then multiset(tokens)[t] else 0
  {
    Seqs.Filter(tokens, (t: SupportToken) => t.userId == userId)
  }

  /** `handleSubmit`: an empty subject or message files nothing; otherwise a
      ticket carrying the user's id and name and the entered text is filed. */
  function SubmitTicket(s: Store.State, subject: string, message: string, now: int, tokenId: string)
    : (r: Result<Store.State, Error>)
    requires s.user.Some?
    ensures r.Failure? <==> subject == "" || message == ""
    ensures r.Failure? ==> r.error == MissingFields
    ensures r.Success? ==>
            var u := s.user.value;
            && |r.value.supportTokens| == |s.supportTokens| + 1
            && r.value.supportTokens[1..] == s.supportTokens
            && r.value.supportTokens[0] == SupportToken(tokenId, u.id, u.username, subject, message, Open, now)
            && r.value.(supportTokens := s.supportTokens) == s
  {
    if subject == "" || message == "" then Failure(MissingFields)
    else
      var u := s.user.value;
      var draft := Store.TokenDraft(u.id, u.username, subject, message);
      Success(s.(supportTokens := Store.AddSupportToken(s.supportTokens, draft, tokenId, now)))
  }

  /** A filed ticket shows up in its owner's list. */
  lemma SubmittedTicketListed(s: Store.State, subject: string, message: string, now: int, tokenId: string)
    requires s.user.Some?
    requires subject != "" && message != ""
    ensures var r := SubmitTicket(s, subject, message, now, tokenId);
            r.Success? && r.value.supportTokens[0] in UserTokens(r.value.supportTokens, s.user.value.id)
  {
  }

  /** `getStatusBadge`: the badge text for each status. */
  function StatusBadge(st: SupportStatus): string {
    match st
    case Open => "পেন্ডিং"
    case InProgress => "প্রসেসিং"
    case Resolved => "সমাধানিত"
  }

  /** Every status has its own badge, so the badge tells the status. */
  lemma StatusBadgeDistinct(a: SupportStatus, b: SupportStatus)
    ensures StatusBadge(a) == StatusBadge(b) ==> a == b
    ensures StatusBadge(a) != ""
  {
  }
}
