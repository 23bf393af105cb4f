/** GET /messages?box=inbox, with its default limit, and which messages it is sure to contain. */
module Inbox {
  import opened Cuts
  import opened Uuid
  import opened Server
  import Views

  const INBOX_LIMIT := 50

  /** ORDER BY sent_at DESC */
  function Newest(s: State): Id -> int {
    m => if m in s.messages then -s.messages[m].sentAt else 0
  }

  /** The newest of the inbox, up to the limit; rows of the same time in any order. */
  ghost predicate IsInboxAnswer(s: State, me: Uuid, ids: seq<Id>) {
    var all := Views.Listed(s, me, Views.Inbox);
    IsFirst(all, Newest(s), Limited(|all|, INBOX_LIMIT), ids)
  }

  /** The other messages of the inbox that are no older. */
  function NoOlder(s: State, me: Uuid, id: Id): set<Id>
    requires id in s.messages
  {
    set m | m in Views.Listed(s, me, Views.Inbox) && m in s.messages && m != id
            && s.messages[m].sentAt >= s.messages[id].sentAt
  }

  /** The exact condition for a message of the inbox to be in every answer: fewer other messages than
      the limit are as new as it. */
  lemma AnsweredForSureIff(s: State, me: Uuid, id: Id)
    requires id in Views.Listed(s, me, Views.Inbox) && id in s.messages
    ensures (forall ids :: IsInboxAnswer(s, me, ids) ==> id in ids) <==> |NoOlder(s, me, id)| < 50
  {
    var all, others := Views.Listed(s, me, Views.Inbox), NoOlder(s, me, id);
    assert others <= all - {id};
    SubsetSize(others, all - {id});
    if |others| >= INBOX_LIMIT {
      var ids := CrowdedIsLeftOut(all, Newest(s), INBOX_LIMIT, id, others);
      assert IsInboxAnswer(s, me, ids);
    } else {
      forall ids | IsInboxAnswer(s, me, ids) ensures id in ids {
        if id !in ids { LeftOutIsCrowded(all, Newest(s), Limited(|all|, INBOX_LIMIT), ids, id, others); }
      }
    }
  }
}
