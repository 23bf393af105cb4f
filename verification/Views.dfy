/** The read routes. Each computes what a user may see with a query of its own; this module shows
    that in every reachable state they agree. */
module Views {
  import opened Wrappers
  import opened Uuid
  import opened Server
  import opened ServerInvariant
  import opened Cuts
  import Verification

  datatype Box = Inbox | Outbox | All

  predicate InBox(m: Msg, user: Uuid, box: Box) {
    match box
    case Inbox => m.recipient == user
    case Outbox => m.sender == user
    case All => m.sender == user || m.recipient == user
  }

  /** JOIN users su ... JOIN users ru */
  predicate Joined(s: State, m: Msg) {
    IsUser(s, m.sender) && IsUser(s, m.recipient)
  }

  /** GET /messages without its limit. */
  function Listed(s: State, user: Uuid, box: Box): set<Id> {
    set m | m in s.messages &&
            Joined(s, s.messages[m]) && InBox(s.messages[m], user, box) &&
            (s.messages[m].sender != user || !s.messages[m].deletedBySender) &&
            (s.messages[m].recipient != user || !s.messages[m].deletedByRecipient) &&
            m !in s.revocations
  }

  /** GET /messages/:id */
  function GetStatus(s: State, user: Uuid, m: Id): Status {
    if m !in s.messages || !Joined(s, s.messages[m]) then NotFound
    else
      var msg := s.messages[m];
      if msg.sender != user && msg.recipient != user then Forbidden
      else if (msg.sender == user && msg.deletedBySender) || (msg.recipient == user && msg.deletedByRecipient)
      then NotFound
      else if m in s.revocations then Revoked
      else Success
  }

  /** GET /conversations/:id/messages, before the page is read. */
  function ConvStatus(s: State, user: Uuid, c: Id): Status {
    if c !in s.convs || !IsUser(s, s.convs[c].a) || !IsUser(s, s.convs[c].b) then NotFound
    else if s.convs[c].a != user && s.convs[c].b != user then Forbidden
    else Success
  }

  predicate ShownInConv(s: State, user: Uuid, c: Id, m: Id)
    requires m in s.messages
  {
    && s.messages[m].conv == c
    && (!s.messages[m].deletedBySender || s.messages[m].sender != user)
    && (!s.messages[m].deletedByRecipient || s.messages[m].recipient != user)
    && m !in s.revocations
  }

  /** Its message query without the page limits. */
  function ConvListed(s: State, user: Uuid, c: Id): set<Id> {
    set m | m in s.messages && Joined(s, s.messages[m]) && ShownInConv(s, user, c, m)
  }

  /** Its count query, which does not join the users. */
  function ConvTotal(s: State, user: Uuid, c: Id): nat {
    |set m | m in s.messages && ShownInConv(s, user, c, m)|
  }

  /** GET /messages/revoked */
  function RevokedFor(s: State, user: Uuid): set<Id> {
    set m | m in s.revocations && m in s.messages && (s.messages[m].sender == user || s.messages[m].recipient == user)
  }

  lemma MessageFacts(s: State, m: Id)
    requires TablesSound(s) && m in s.messages
    ensures Joined(s, s.messages[m]) && s.messages[m].sender != s.messages[m].recipient
    ensures forall u :: (s.messages[m].sender == u || s.messages[m].recipient == u) <==>
                        ConvStatus(s, u, s.messages[m].conv) == Success
  {
    SendsToOthers(s, m);
    var c := s.messages[m].conv;
    assert IsUser(s, s.convs[c].a) && IsUser(s, s.convs[c].b);
  }

  /** A message is in the full list exactly when it can be fetched, exactly when its conversation can
      be opened and shows it. */
  lemma RoutesAgree(s: State, user: Uuid, m: Id)
    requires TablesSound(s) && m in s.messages
    ensures m in Listed(s, user, All) <==> GetStatus(s, user, m) == Success
    ensures m in Listed(s, user, All) <==>
            ConvStatus(s, user, s.messages[m].conv) == Success && m in ConvListed(s, user, s.messages[m].conv)
  {
    MessageFacts(s, m);
  }

  /** Inbox and outbox partition the full list. */
  lemma BoxesPartition(s: State, user: Uuid)
    requires TablesSound(s)
    ensures Listed(s, user, All) == Listed(s, user, Inbox) + Listed(s, user, Outbox)
    ensures Listed(s, user, Inbox) !! Listed(s, user, Outbox)
    ensures |Listed(s, user, All)| == |Listed(s, user, Inbox)| + |Listed(s, user, Outbox)|
  {
    forall m ensures InOneBox(s, user, m) {
      OneBox(s, user, m);
    }
    Partition(s, user, Listed(s, user, All), Listed(s, user, Inbox), Listed(s, user, Outbox));
  }

  ghost predicate InOneBox(s: State, user: Uuid, m: Id) {
    && (m in Listed(s, user, All) <==> m in Listed(s, user, Inbox) || m in Listed(s, user, Outbox))
    && !(m in Listed(s, user, Inbox) && m in Listed(s, user, Outbox))
  }

  lemma OneBox(s: State, user: Uuid, m: Id)
    requires TablesSound(s)
    ensures InOneBox(s, user, m)
  {
    if m in s.messages { MessageFacts(s, m); }
  }

  lemma Partition(s: State, user: Uuid, all: set<Id>, inbox: set<Id>, outbox: set<Id>)
    requires all == Listed(s, user, All) && inbox == Listed(s, user, Inbox) && outbox == Listed(s, user, Outbox)
    requires forall m :: InOneBox(s, user, m)
    ensures all == inbox + outbox && inbox !! outbox && |all| == |inbox| + |outbox|
  {
    assert all == inbox + outbox by {
      forall m ensures m in all <==> m in inbox + outbox { assert InOneBox(s, user, m); }
    }
    assert inbox !! outbox by {
      forall m | m in inbox ensures m !in outbox { assert InOneBox(s, user, m); }
    }
  }

  /** GET /conversations: the user's conversations, each once. */
  ghost predicate IsConvList(s: State, user: Uuid, list: seq<Id>) {
    && (forall i, j :: 0 <= i < j < |list| ==> list[i] != list[j])
    && (forall c :: c in list <==> c in s.convs && (s.convs[c].a == user || s.convs[c].b == user))
  }

  function SumTotals(s: State, user: Uuid, list: seq<Id>): nat {
    if list == [] then 0 else ConvTotal(s, user, list[0]) + SumTotals(s, user, list[1..])
  }

  ghost function ShownInSome(s: State, user: Uuid, list: seq<Id>): set<Id> {
    set m | m in s.messages && s.messages[m].conv in list && ShownInConv(s, user, s.messages[m].conv, m)
  }

  lemma {:induction false} SumIsSize(s: State, user: Uuid, list: seq<Id>)
    requires forall i, j :: 0 <= i < j < |list| ==> list[i] != list[j]
    ensures SumTotals(s, user, list) == |ShownInSome(s, user, list)|
  {
    if list == [] {
      assert ShownInSome(s, user, list) == {};
    } else {
      SumIsSize(s, user, list[1..]);
      var here := set m | m in s.messages && ShownInConv(s, user, list[0], m);
      assert ShownInSome(s, user, list) == here + ShownInSome(s, user, list[1..]);
      assert here !! ShownInSome(s, user, list[1..]);
    }
  }

  lemma ShownIsListed(s: State, user: Uuid, list: seq<Id>)
    requires TablesSound(s) && IsConvList(s, user, list)
    ensures ShownInSome(s, user, list) == Listed(s, user, All)
  {
    forall m | m in s.messages ensures m in ShownInSome(s, user, list) <==> m in Listed(s, user, All) {
      MessageFacts(s, m);
      SendsToOthers(s, m);
      assert s.messages[m].conv in list <==> InBox(s.messages[m], user, All);
    }
  }

  /** The totals shown with the conversations add up to the full list. */
  lemma TotalsAddUp(s: State, user: Uuid, list: seq<Id>)
    requires TablesSound(s) && IsConvList(s, user, list)
    ensures SumTotals(s, user, list) == |Listed(s, user, All)|
    ensures forall c :: c in list ==> ConvTotal(s, user, c) == |ConvListed(s, user, c)|
  {
    SumIsSize(s, user, list);
    ShownIsListed(s, user, list);
    forall c | c in list ensures ConvTotal(s, user, c) == |ConvListed(s, user, c)| {
      forall m | m in s.messages ensures Joined(s, s.messages[m]) { MessageFacts(s, m); }
      assert ConvListed(s, user, c) == set m | m in s.messages && ShownInConv(s, user, c, m);
    }
  }

  // ---- what deleting and revoking do to the views ----

  /** Deleting hides the message from its deleter and changes nobody else's view. */
  lemma DeleteHidesOneSide(h: Verification.Hashing, s: State, user: Uuid, m: Id, other: Uuid)
    requires TablesSound(s) && IsUser(s, user) && DeleteStatus(s, user, m) == Success
    ensures var t := Apply(h, s, Delete(user, m));
            && GetStatus(t, user, m) == NotFound
            && Listed(t, user, All) == Listed(s, user, All) - {m}
            && (other != user ==>
                  Listed(t, other, All) == Listed(s, other, All) && GetStatus(t, other, m) == GetStatus(s, other, m))
  {
    var t := Apply(h, s, Delete(user, m));
    SendsToOthers(s, m);
    assert t == s.(messages := s.messages[m := Deleted(s.messages[m], user)]);
    HiddenFromDeleter(s, t, user, m);
    if other != user { OthersSeeAsBefore(s, t, user, m, other); }
  }

  lemma HiddenFromDeleter(s: State, t: State, user: Uuid, m: Id)
    requires DeleteStatus(s, user, m) == Success && s.messages[m].sender != s.messages[m].recipient
    requires t == s.(messages := s.messages[m := Deleted(s.messages[m], user)])
    ensures GetStatus(t, user, m) == NotFound && Listed(t, user, All) == Listed(s, user, All) - {m}
  {
    forall x ensures x in Listed(t, user, All) <==> x in Listed(s, user, All) && x != m {
      if x in s.messages && x != m { assert t.messages[x] == s.messages[x]; }
    }
  }

  lemma OthersSeeAsBefore(s: State, t: State, user: Uuid, m: Id, other: Uuid)
    requires DeleteStatus(s, user, m) == Success && s.messages[m].sender != s.messages[m].recipient && other != user
    requires t == s.(messages := s.messages[m := Deleted(s.messages[m], user)])
    ensures Listed(t, other, All) == Listed(s, other, All) && GetStatus(t, other, m) == GetStatus(s, other, m)
  {
    forall x ensures x in Listed(t, other, All) <==> x in Listed(s, other, All) {
      if x in s.messages && x != m { assert t.messages[x] == s.messages[x]; }
    }
  }

  /** Revoking hides the message from both sides, tells both of them, and touches no other message. */
  lemma RevokeHidesBothSides(h: Verification.Hashing, s: State, user: Uuid, m: Id, anyone: Uuid)
    requires TablesSound(s) && IsUser(s, user) && RevokeStatus(s, user, m) == Success
    ensures var t := Apply(h, s, Revoke(user, m));
            && Listed(t, anyone, All) == Listed(s, anyone, All) - {m}
            && (GetStatus(s, anyone, m) == Success ==> GetStatus(t, anyone, m) == Revoked)
            && (anyone == s.messages[m].sender || anyone == s.messages[m].recipient ==>
                  RevokedFor(t, anyone) == RevokedFor(s, anyone) + {m})
  {
    RevokeFrame(h, s, user, m);
    HiddenFromBoth(s, Apply(h, s, Revoke(user, m)), m, anyone);
  }

  lemma HiddenFromBoth(s: State, t: State, m: Id, anyone: Uuid)
    requires m in s.messages && t == s.(revocations := t.revocations) && t.revocations.Keys == s.revocations.Keys + {m}
    ensures Listed(t, anyone, All) == Listed(s, anyone, All) - {m}
    ensures GetStatus(s, anyone, m) == Success ==> GetStatus(t, anyone, m) == Revoked
    ensures anyone == s.messages[m].sender || anyone == s.messages[m].recipient ==>
              RevokedFor(t, anyone) == RevokedFor(s, anyone) + {m}
  {
    forall x ensures x in t.revocations <==> x in s.revocations || x == m {
      assert x in t.revocations.Keys <==> x in s.revocations.Keys + {m};
    }
  }

  /** It touches one flag of one message. */
  lemma DeleteSetsOneFlag(h: Verification.Hashing, s: State, user: Uuid, m: Id)
    requires TablesSound(s) && IsUser(s, user) && DeleteStatus(s, user, m) == Success
    ensures var t := Apply(h, s, Delete(user, m));
            && t == s.(messages := t.messages) && t.messages.Keys == s.messages.Keys
            && (forall x :: x in s.messages && x != m ==> t.messages[x] == s.messages[x])
            && t.messages[m] == (if user == s.messages[m].sender then s.messages[m].(deletedBySender := true)
                                 else s.messages[m].(deletedByRecipient := true))
  {
  }

  /** A stranger can neither delete nor revoke, the recipient cannot revoke, and nobody twice. */
  lemma RefusalsChangeNothing(h: Verification.Hashing, s: State, user: Uuid, m: Id)
    requires IsUser(s, user)
    ensures m !in s.messages || (s.messages[m].sender != user && s.messages[m].recipient != user) ==>
              && DeleteStatus(s, user, m) == (if m in s.messages then Forbidden else NotFound)
              && Apply(h, s, Delete(user, m)) == s
    ensures m !in s.messages || s.messages[m].sender != user ==>
              && RevokeStatus(s, user, m) == (if m in s.messages then Forbidden else NotFound)
              && Apply(h, s, Revoke(user, m)) == s
    ensures m in s.revocations ==> Apply(h, s, Revoke(user, m)) == s
  {
  }

  predicate HiddenFrom(m: Msg, user: Uuid) {
    (m.sender == user && m.deletedBySender) || (m.recipient == user && m.deletedByRecipient)
  }

  /** What each refusal of the read routes means. */
  lemma RefusalsMean(s: State, user: Uuid, m: Id, c: Id)
    requires TablesSound(s)
    ensures GetStatus(s, user, m) == Forbidden <==>
            m in s.messages && s.messages[m].sender != user && s.messages[m].recipient != user
    ensures GetStatus(s, user, m) == NotFound <==> m !in s.messages || HiddenFrom(s.messages[m], user)
    ensures GetStatus(s, user, m) == Revoked <==>
            && m in s.messages && (s.messages[m].sender == user || s.messages[m].recipient == user)
            && !HiddenFrom(s.messages[m], user) && m in s.revocations
    ensures ConvStatus(s, user, c) == NotFound <==> c !in s.convs
    ensures ConvStatus(s, user, c) == Success <==> c in s.convs && (s.convs[c].a == user || s.convs[c].b == user)
  {
    if m in s.messages { MessageFacts(s, m); }
  }

  // ---- unread counts ----

  /** COUNT(m.id) FILTER (...) of GET /conversations */
  function Unread(s: State, user: Uuid, c: Id): set<Id> {
    set m | m in s.messages && s.messages[m].conv == c && s.messages[m].recipient == user
            && s.messages[m].readAt.None? && !s.messages[m].deletedByRecipient
  }

  function UnreadShown(s: State, user: Uuid, c: Id): set<Id> {
    set m | m in ConvListed(s, user, c) && m in s.messages
            && s.messages[m].recipient == user && s.messages[m].readAt.None?
  }

  /** The unread count does not look at revocations. It is the number of unread messages the
      conversation shows exactly when none of the unread ones was revoked. */
  lemma UnreadCountIffNoneRevoked(s: State, user: Uuid, c: Id)
    requires TablesSound(s)
    ensures UnreadShown(s, user, c) <= Unread(s, user, c)
    ensures |Unread(s, user, c)| == |UnreadShown(s, user, c)| <==> Unread(s, user, c) !! s.revocations.Keys
  {
    forall m ensures m in UnreadShown(s, user, c) <==> m in Unread(s, user, c) && m !in s.revocations.Keys {
      ShownUnlessRevoked(s, user, c, m);
    }
    SameSizeIff(UnreadShown(s, user, c), Unread(s, user, c), s.revocations.Keys);
  }

  lemma ShownUnlessRevoked(s: State, user: Uuid, c: Id, m: Id)
    requires TablesSound(s)
    ensures m in UnreadShown(s, user, c) <==> m in Unread(s, user, c) && m !in s.revocations
  {
    if m in s.messages { MessageFacts(s, m); }
  }

  lemma SameSizeIff(part: set<Id>, whole: set<Id>, removed: set<Id>)
    requires forall m :: m in part <==> m in whole && m !in removed
    ensures part <= whole && (|whole| == |part| <==> whole !! removed)
  {
    if whole !! removed {
      assert whole == part;
    } else {
      var m :| m in whole && m in removed;
      SubsetSize(part, whole - {m});
    }
  }

  /** The two do come apart: whenever a sender revokes a message that its recipient has neither read
      nor deleted, the count is too high from then on. */
  lemma RevokingUnreadOvercounts(h: Verification.Hashing, s: State, m: Id, user: Uuid)
    requires TablesSound(s) && m in s.messages && user == s.messages[m].recipient
    requires s.messages[m].readAt.None? && !s.messages[m].deletedByRecipient
    ensures Enabled(h, s, Revoke(s.messages[m].sender, m))
    ensures var t := Apply(h, s, Revoke(s.messages[m].sender, m)); var c := s.messages[m].conv;
            m in Unread(t, user, c) && |Unread(t, user, c)| > |UnreadShown(t, user, c)|
  {
    MessageFacts(s, m);
    StepKeepsTables(h, s, Revoke(s.messages[m].sender, m));
    RevokeFrame(h, s, s.messages[m].sender, m);
    RevokedUnreadOvercounts(Apply(h, s, Revoke(s.messages[m].sender, m)), m);
  }

  lemma RevokeFrame(h: Verification.Hashing, s: State, user: Uuid, m: Id)
    requires IsUser(s, user) && RevokeStatus(s, user, m) == Success
    ensures var t := Apply(h, s, Revoke(user, m));
            t == s.(revocations := t.revocations) && t.revocations.Keys == s.revocations.Keys + {m}
  {
  }

  lemma RevokedUnreadOvercounts(t: State, m: Id)
    requires TablesSound(t) && m in t.messages && m in t.revocations
    requires t.messages[m].readAt.None? && !t.messages[m].deletedByRecipient
    ensures var user, c := t.messages[m].recipient, t.messages[m].conv;
            m in Unread(t, user, c) && |Unread(t, user, c)| > |UnreadShown(t, user, c)|
  {
    var user, c := t.messages[m].recipient, t.messages[m].conv;
    UnreadCountIffNoneRevoked(t, user, c);
    assert m in Unread(t, user, c);
    SubsetSize(UnreadShown(t, user, c), Unread(t, user, c));
  }

  /** Marking a conversation read clears its unread count, and only its own. */
  lemma MarkReadClears(h: Verification.Hashing, s: State, user: Uuid, c: Id, now: int, d: Id)
    requires TablesSound(s) && IsUser(s, user) && ConvStatus(s, user, c) == Success
    ensures Enabled(h, s, MarkRead(user, c, now))
    ensures var t := Apply(h, s, MarkRead(user, c, now));
            Unread(t, user, c) == {} && (d != c ==> Unread(t, user, d) == Unread(s, user, d))
  {
    var t := Apply(h, s, MarkRead(user, c, now));
    ReadFrame(h, s, user, c, now);
    NoneUnread(s, t, user, c, now);
    if d != c { OthersStayUnread(s, t, user, c, now, d); }
  }

  /** It sets the reading time of exactly the unread messages to the user, once, and hides nothing. */
  lemma MarkReadSetsTimes(h: Verification.Hashing, s: State, user: Uuid, c: Id, now: int, m: Id, anyone: Uuid, box: Box)
    requires IsUser(s, user) && ConvStatus(s, user, c) == Success && m in s.messages
    ensures var t := Apply(h, s, MarkRead(user, c, now));
            && m in t.messages && t.messages[m] == s.messages[m].(readAt := t.messages[m].readAt)
            && (m in Unread(s, user, c) ==> t.messages[m].readAt == Some(now))
            && (s.messages[m].conv != c || s.messages[m].recipient != user || s.messages[m].readAt.Some? ==>
                  t.messages[m].readAt == s.messages[m].readAt)
            && (m in Listed(t, anyone, box) <==> m in Listed(s, anyone, box))
  {
    ReadFrame(h, s, user, c, now);
    ReadKeepsRest(h, s, user, c, now);
  }

  lemma ReadKeepsRest(h: Verification.Hashing, s: State, user: Uuid, c: Id, now: int)
    requires IsUser(s, user) && ConvStatus(s, user, c) == Success
    ensures var t := Apply(h, s, MarkRead(user, c, now)); t == s.(messages := t.messages)
  {
  }

  lemma ReadFrame(h: Verification.Hashing, s: State, user: Uuid, c: Id, now: int)
    requires Enabled(h, s, MarkRead(user, c, now)) && ConvStatus(s, user, c) == Success
    ensures Apply(h, s, MarkRead(user, c, now)).messages == map m | m in s.messages :: Read(s.messages[m], user, c, now)
  {
  }

  lemma NoneUnread(s: State, t: State, user: Uuid, c: Id, now: int)
    requires t.messages == map m | m in s.messages :: Read(s.messages[m], user, c, now)
    ensures Unread(t, user, c) == {}
  {
  }

  lemma OthersStayUnread(s: State, t: State, user: Uuid, c: Id, now: int, d: Id)
    requires t.messages == map m | m in s.messages :: Read(s.messages[m], user, c, now)
    requires d != c
    ensures Unread(t, user, d) == Unread(s, user, d)
  {
  }

  // ---- pages ----

  /** The rows a page of a conversation is cut from: those shown, sent before the cursor. */
  function Before(s: State, user: Uuid, c: Id, cursor: int): set<Id> {
    set m | m in ConvListed(s, user, c) && m in s.messages && s.messages[m].sentAt < cursor
  }

  /** ORDER BY sent_at ASC */
  function Oldest(s: State): Id -> int {
    m => if m in s.messages then s.messages[m].sentAt else 0
  }

  /** GET /conversations/:id/messages?before=...&limit=... */
  ghost predicate IsPage(s: State, user: Uuid, c: Id, cursor: int, limit: nat, page: seq<Id>) {
    var all := Before(s, user, c, cursor);
    IsFirst(all, Oldest(s), Limited(|all|, limit), page)
  }

  /** What the route's comment promises: the most recent rows before the cursor, still in ascending order. */
  ghost predicate IsRecentWindow(s: State, user: Uuid, c: Id, cursor: int, limit: nat, page: seq<Id>) {
    var all := Before(s, user, c, cursor);
    && IsCut(all, Oldest(s), Limited(|all|, limit), page)
    && forall m, i :: m in all && m !in page && 0 <= i < |page| ==> Oldest(s)(m) <= Oldest(s)(page[i])
  }

  /** A page shows only what the conversation shows and was sent before the cursor, and all of that if it
      fits. */
  lemma PageShows(s: State, user: Uuid, c: Id, cursor: int, limit: nat, page: seq<Id>, m: Id)
    requires IsPage(s, user, c, cursor, limit, page)
    ensures |page| <= limit
    ensures m in page ==> m in s.messages && m in ConvListed(s, user, c) && s.messages[m].sentAt < cursor
    ensures |page| < limit && m in s.messages && m in ConvListed(s, user, c) && s.messages[m].sentAt < cursor ==>
              m in page
  {
    var all := Before(s, user, c, cursor);
    ElementsSize(page);
    if m in all && m !in page {
      SubsetSize(Elements(page), all - {m});
    }
  }

  predicate SameTimes(s: State, all: set<Id>) {
    forall m, n :: m in all && n in all ==> Oldest(s)(m) == Oldest(s)(n)
  }

  /** The exact condition for a page to be the most recent window: there are no more rows before the
      cursor than fit on it, or they were all sent at the same instant. */
  lemma PageIsRecentIff(s: State, user: Uuid, c: Id, cursor: int, limit: nat, page: seq<Id>)
    requires limit >= 1 && IsPage(s, user, c, cursor, limit, page)
    ensures IsRecentWindow(s, user, c, cursor, limit, page) <==>
            |Before(s, user, c, cursor)| <= limit || SameTimes(s, Before(s, user, c, cursor))
  {
    var all := Before(s, user, c, cursor);
    ElementsSize(page);
    if |all| <= limit {
      forall m | m in all ensures m in page {
        if m !in page { SubsetSize(Elements(page), all - {m}); }
      }
    } else if IsRecentWindow(s, user, c, cursor, limit, page) {
      var out := LeftOut(all, page);
      forall m | m in all ensures Oldest(s)(m) == Oldest(s)(out) {
        assert Oldest(s)(out) == Oldest(s)(page[0]);
        if m in page {
          var i :| 0 <= i < |page| && page[i] == m;
        }
      }
    }
  }

  lemma LeftOut(all: set<Id>, page: seq<Id>) returns (out: Id)
    requires |page| < |all| && NoTwice(page)
    ensures out in all && out !in page
  {
    ElementsSize(page);
    if all <= Elements(page) { SubsetSize(all, Elements(page)); }
    out :| out in all && out !in Elements(page);
  }

  /** There is a page for every cursor and limit; and with more rows of different times than fit on
      one, it is not the window that was promised. */
  lemma PageCanMissNewest(s: State, user: Uuid, c: Id, cursor: int, limit: nat) returns (page: seq<Id>)
    requires limit >= 1
    ensures IsPage(s, user, c, cursor, limit, page)
    ensures |Before(s, user, c, cursor)| > limit && !SameTimes(s, Before(s, user, c, cursor)) ==>
              !IsRecentWindow(s, user, c, cursor, limit, page)
  {
    var all := Before(s, user, c, cursor);
    page := FirstExists(all, Oldest(s), Limited(|all|, limit));
    PageIsRecentIff(s, user, c, cursor, limit, page);
  }

  /** Nor is it a matter of luck: no page shows a row that `limit` rows before the cursor are older than. */
  lemma NewestIsNeverShown(s: State, user: Uuid, c: Id, cursor: int, limit: nat, page: seq<Id>, m: Id)
    requires IsPage(s, user, c, cursor, limit, page) && m in Before(s, user, c, cursor)
    requires |OlderThan(s, Before(s, user, c, cursor), m)| >= limit
    ensures m !in page
  {
    var all := Before(s, user, c, cursor);
    var older := OlderThan(s, all, m);
    if m in page {
      var i :| 0 <= i < |page| && page[i] == m;
      assert older <= Elements(page) - {m} by {
        forall x | x in older ensures x in Elements(page) - {m} { assert x in page; }
      }
      ElementsSize(page);
      SubsetSize(older, Elements(page) - {m});
    }
  }

  function OlderThan(s: State, all: set<Id>, m: Id): set<Id> {
    set x | x in all && Oldest(s)(x) < Oldest(s)(m)
  }
}
