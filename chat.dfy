/**
 The chat group actions over the `conversation_participants` table (one row
 per member, with its join time) and the `is_group` flag of `conversations`.
 The signed-in user, the database's failures and the join time given to new
 rows are parameters.
 */
module Chat {
  import opened Wrappers
  import Lists
  import Sorting

  datatype Participant = Participant(conversationId: string, userId: string, joinedAt: int)

  /** `{ success: true }` or `{ error }`. */
  datatype Outcome = Success | Failure(error: string)

  const NotAuthenticated: string := "Not authenticated"
  const LeaveFailed: string := "Failed to leave group"
  const VerifyFailed: string := "Failed to verify permissions"
  const NotCreator: string := "Only the group creator can remove members."
  const RemoveFailed: string := "Failed to remove user. Check permissions."
  const NotMember: string := "You are not a member of this chat"
  const AddFailed: string := "Failed to add participants"

  function InConversation(conv: string): Participant -> bool {
    (p: Participant) => p.conversationId == conv
  }

  function IsRow(conv: string, user: string): Participant -> bool {
    (p: Participant) => p.conversationId == conv && p.userId == user
  }

  function NotRow(conv: string, user: string): Participant -> bool {
    (p: Participant) => !(p.conversationId == conv && p.userId == user)
  }

  predicate IsMember(ps: seq<Participant>, conv: string, user: string) {
    exists k :: 0 <= k < |ps| && ps[k].conversationId == conv && ps[k].userId == user
  }

  /** The table after deleting every row matching `(conv, user)`. */
  function Without(ps: seq<Participant>, conv: string, user: string): seq<Participant> {
    Lists.Filter(ps, NotRow(conv, user))
  }

  /** Deleting a membership removes that one membership and keeps every other. */
  lemma WithoutMembership(ps: seq<Participant>, conv: string, user: string, c: string, u: string)
    ensures IsMember(Without(ps, conv, user), c, u) <==> IsMember(ps, c, u) && !(c == conv && u == user)
  {
    var r := Without(ps, conv, user);
    if IsMember(r, c, u) {
      var k :| 0 <= k < |r| && r[k].conversationId == c && r[k].userId == u;
      assert r[k] in ps;
    }
    if IsMember(ps, c, u) && !(c == conv && u == user) {
      var k :| 0 <= k < |ps| && ps[k].conversationId == c && ps[k].userId == u;
      assert ps[k] in r;
    }
  }

  function JoinedAt(p: Participant): int { p.joinedAt }

  /**
   The conversation's creator: the first member in ascending join order (the
   database query orders by `joined_at`; rows with equal join times keep table
   order), or None when the conversation has no members.
   */
  function Creator(ps: seq<Participant>, conv: string): (r: Option<string>)
    ensures r.None? <==> forall k :: 0 <= k < |ps| ==> ps[k].conversationId != conv
  {
    var members := Lists.Filter(ps, InConversation(conv));
    var ordered := Sorting.SortBy(members, JoinedAt);
    if |ordered| == 0 then None else Some(ordered[0].userId)
  }

  /** The creator is a member of the conversation whose join time is the earliest. */
  lemma CreatorJoinedFirst(ps: seq<Participant>, conv: string)
    requires Creator(ps, conv).Some?
    ensures exists k ::
      && 0 <= k < |ps| && ps[k].conversationId == conv && ps[k].userId == Creator(ps, conv).value
      && (forall j :: 0 <= j < |ps| && ps[j].conversationId == conv ==> ps[k].joinedAt <= ps[j].joinedAt)
  {
    var members := Lists.Filter(ps, InConversation(conv));
    var ordered := Sorting.SortBy(members, JoinedAt);
    Sorting.SortByPermutes(members, JoinedAt);
    var first := ordered[0];
    assert first in multiset(members);
    var k :| 0 <= k < |ps| && ps[k] == first;
    forall j | 0 <= j < |ps| && ps[j].conversationId == conv ensures first.joinedAt <= ps[j].joinedAt {
      assert ps[j] in multiset(ordered);
      Sorting.SortedHeadIsLeast(ordered, JoinedAt, ps[j]);
    }
    assert ps[k].userId == Creator(ps, conv).value;
  }

  /** A member who joined strictly before every other member is the creator. */
  lemma EarliestJoinerIsCreator(ps: seq<Participant>, conv: string, k: nat)
    requires k < |ps| && ps[k].conversationId == conv
    requires forall j :: 0 <= j < |ps| && j != k && ps[j].conversationId == conv ==> ps[k].joinedAt < ps[j].joinedAt
    ensures Creator(ps, conv) == Some(ps[k].userId)
  {
    CreatorJoinedFirst(ps, conv);
    var c :| 0 <= c < |ps| && ps[c].conversationId == conv && ps[c].userId == Creator(ps, conv).value
      && (forall j :: 0 <= j < |ps| && ps[j].conversationId == conv ==> ps[c].joinedAt <= ps[j].joinedAt);
    assert ps[c].joinedAt <= ps[k].joinedAt;
  }

  function NotIn(current: seq<string>): string -> bool {
    (id: string) => id !in current
  }

  /** The requested ids that are not yet members, in request order, repeats kept. */
  function NewMembers(userIds: seq<string>, current: seq<string>): (r: seq<string>)
    ensures Lists.IsSubseq(r, userIds)
    ensures forall k :: 0 <= k < |userIds| ==> (userIds[k] in r <==> userIds[k] !in current)
    ensures forall k :: 0 <= k < |userIds| && userIds[k] !in current ==>
      multiset(r)[userIds[k]] == multiset(userIds)[userIds[k]]
  {
    forall k | 0 <= k < |userIds| && userIds[k] !in current
      ensures multiset(Lists.Filter(userIds, NotIn(current)))[userIds[k]] == multiset(userIds)[userIds[k]]
    {
      Lists.FilterMultiset(userIds, NotIn(current), userIds[k]);
    }
    Lists.Filter(userIds, NotIn(current))
  }

  /** Asking again for the same ids once they were added adds nobody. */
  lemma AddingAgainAddsNobody(userIds: seq<string>, current: seq<string>)
    ensures NewMembers(userIds, current + NewMembers(userIds, current)) == []
  {
    var added := NewMembers(userIds, current);
    forall k | 0 <= k < |userIds| ensures userIds[k] in current + added {
      if userIds[k] !in current {
        assert userIds[k] in added;
      }
    }
    Lists.FilterNone(userIds, NotIn(current + added));
  }

  function UserIdOf(p: Participant): string { p.userId }

  /** The user ids of a conversation's rows (the members query). */
  function MemberIds(ps: seq<Participant>, conv: string): (ids: seq<string>)
    ensures forall u :: u in ids <==> IsMember(ps, conv, u)
  {
    var members := Lists.Filter(ps, InConversation(conv));
    var ids := seq(|members|, k requires 0 <= k < |members| => members[k].userId);
    assert forall u :: u in ids <==> IsMember(ps, conv, u) by {
      forall u ensures u in ids <==> IsMember(ps, conv, u) {
        if u in ids {
          var k :| 0 <= k < |ids| && ids[k] == u;
          assert members[k] in ps;
        }
        if IsMember(ps, conv, u) {
          var j :| 0 <= j < |ps| && ps[j].conversationId == conv && ps[j].userId == u;
          assert ps[j] in members;
          var k :| 0 <= k < |members| && members[k] == ps[j];
          assert ids[k] == u;
        }
      }
    }
    ids
  }

  /** The rows inserted for the new members. */
  function Rows(conv: string, ids: seq<string>, joinedAt: int): (rows: seq<Participant>)
    ensures |rows| == |ids| && forall k :: 0 <= k < |ids| ==> rows[k] == Participant(conv, ids[k], joinedAt)
  {
    seq(|ids|, k requires 0 <= k < |ids| => Participant(conv, ids[k], joinedAt))
  }

  /** After the insert every requested id is a member. */
  lemma InsertedAreMembers(ps: seq<Participant>, conv: string, userIds: seq<string>, joinedAt: int)
    ensures var after := ps + Rows(conv, NewMembers(userIds, MemberIds(ps, conv)), joinedAt);
      forall k :: 0 <= k < |userIds| ==> IsMember(after, conv, userIds[k])
  {
    var current := MemberIds(ps, conv);
    var added := NewMembers(userIds, current);
    var after := ps + Rows(conv, added, joinedAt);
    forall k | 0 <= k < |userIds| ensures IsMember(after, conv, userIds[k]) {
      if userIds[k] in current {
        var j :| 0 <= j < |ps| && ps[j].conversationId == conv && ps[j].userId == userIds[k];
        assert after[j] == ps[j];
      } else {
        var i :| 0 <= i < |added| && added[i] == userIds[k];
        assert after[|ps| + i] == Participant(conv, userIds[k], joinedAt);
      }
    }
  }

  class ChatStore {
    var participants: seq<Participant>
    /** `conversations.is_group`, by conversation id. */
    var isGroup: map<string, bool>

    constructor (participants: seq<Participant>, isGroup: map<string, bool>)
      ensures this.participants == participants && this.isGroup == isGroup
    {
      this.participants := participants;
      this.isGroup := isGroup;
    }

    /** `leaveGroup`: deletes the caller's row for the conversation and nothing else. */
    method LeaveGroup(user: Option<string>, conv: string, deleteFails: bool) returns (r: Outcome)
      modifies this
      ensures user.None? ==> r == Failure(NotAuthenticated)
      ensures user.Some? && deleteFails ==> r == Failure(LeaveFailed)
      ensures user.Some? && !deleteFails ==>
        r == Success && participants == Without(old(participants), conv, user.value)
      ensures !(user.Some? && !deleteFails) ==> participants == old(participants)
      ensures isGroup == old(isGroup)
    {
      if user.None? {
        return Failure(NotAuthenticated);
      }
      if deleteFails {
        return Failure(LeaveFailed);
      }
      participants := Without(participants, conv, user.value);
      return Success;
    }

    /**
     `removeUserFromGroup`: only the earliest-joined member may remove, and only
     the target's row is deleted.
     */
    method RemoveUserFromGroup(user: Option<string>, conv: string, target: string, fetchFails: bool, removeFails: bool)
      returns (r: Outcome)
      modifies this
      ensures var creator := Creator(old(participants), conv);
        && (user.None? ==> r == Failure(NotAuthenticated))
        && (user.Some? && (fetchFails || creator.None?) ==> r == Failure(VerifyFailed))
        && (user.Some? && !fetchFails && creator.Some? && creator.value != user.value ==> r == Failure(NotCreator))
        && (user.Some? && !fetchFails && creator == Some(user.value) && removeFails ==> r == Failure(RemoveFailed))
        && (user.Some? && !fetchFails && creator == Some(user.value) && !removeFails ==>
              r == Success && participants == Without(old(participants), conv, target))
        && (r != Success ==> participants == old(participants))
      ensures isGroup == old(isGroup)
    {
      if user.None? {
        return Failure(NotAuthenticated);
      }
      var creator := Creator(participants, conv);
      if fetchFails || creator.None? {
        return Failure(VerifyFailed);
      }
      if creator.value != user.value {
        return Failure(NotCreator);
      }
      if removeFails {
        return Failure(RemoveFailed);
      }
      participants := Without(participants, conv, target);
      return Success;
    }

    /**
     `addParticipants`: the caller must have exactly one membership row (the
     `.single()` check); a failed members query counts as no members; only ids
     not yet members are inserted; with nobody new it succeeds without touching
     `is_group`; after an insert the conversation, if it exists, becomes a
     group (that update's own failure is ignored).
     */
    method AddParticipants(user: Option<string>, conv: string, userIds: seq<string>, now: int,
                           checkFails: bool, membersFetchFails: bool, insertFails: bool, groupUpdateFails: bool)
      returns (r: Outcome)
      modifies this
      ensures var member := user.Some? && !checkFails && Lists.Count(old(participants), IsRow(conv, user.value)) == 1;
        var current := if membersFetchFails then [] else MemberIds(old(participants), conv);
        var added := NewMembers(userIds, current);
        && (user.None? ==> r == Failure(NotAuthenticated))
        && (user.Some? && !member ==> r == Failure(NotMember))
        && (user.Some? && member && added == [] ==> r == Success)
        && (user.Some? && member && added != [] && insertFails ==> r == Failure(AddFailed))
        && (user.Some? && member && added != [] && !insertFails ==>
              && r == Success
              && participants == old(participants) + Rows(conv, added, now)
              && isGroup == (if conv in old(isGroup) && !groupUpdateFails then old(isGroup)[conv := true] else old(isGroup)))
        && (!(user.Some? && member && added != [] && !insertFails) ==>
              participants == old(participants) && isGroup == old(isGroup))
    {
      if user.None? {
        return Failure(NotAuthenticated);
      }
      if checkFails || Lists.Count(participants, IsRow(conv, user.value)) != 1 {
        return Failure(NotMember);
      }
      var current := if membersFetchFails then [] else MemberIds(participants, conv);
      var newMembers := NewMembers(userIds, current);
      if |newMembers| == 0 {
        return Success;
      }
      if insertFails {
        return Failure(AddFailed);
      }
      participants := participants + Rows(conv, newMembers, now);
      if conv in isGroup && !groupUpdateFails {
        isGroup := isGroup[conv := true];
      }
      return Success;
    }
  }
}
