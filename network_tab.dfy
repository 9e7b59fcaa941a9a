/** The search box of the network tab: a case-insensitive match on name or role. */
module NetworkTab {
  import Text
  import Lists
  import Network

  function Matches(query: string): Network.User -> bool {
    (u: Network.User) => Text.ContainsIgnoringCase(u.name, query) || Text.ContainsIgnoringCase(u.role, query)
  }

  /** `filteredUsers`: the users whose name or role contains the query, ignoring case, in order. */
  function FilteredUsers(users: seq<Network.User>, query: string): (r: seq<Network.User>)
    ensures Lists.IsSubseq(r, users)
    ensures forall k :: 0 <= k < |users| ==>
      (users[k] in r <==> Text.ContainsIgnoringCase(users[k].name, query) || Text.ContainsIgnoringCase(users[k].role, query))
  {
    Lists.Filter(users, Matches(query))
  }

  /** The empty query keeps every user. */
  lemma EmptyQueryKeepsAll(users: seq<Network.User>)
    ensures FilteredUsers(users, "") == users
  {
    forall k | 0 <= k < |users| ensures Matches("")(users[k]) {
      Text.ContainsIgnoringCaseProperties(users[k].name, "");
    }
    Lists.FilterAll(users, Matches(""));
  }

  /** Queries with the same lower-case form select the same users. */
  lemma CaseInsensitive(users: seq<Network.User>, q1: string, q2: string)
    requires Text.Lower(q1) == Text.Lower(q2)
    ensures FilteredUsers(users, q1) == FilteredUsers(users, q2)
  {
    Lists.FilterCongruent(users, Matches(q1), Matches(q2));
  }

  /** In particular an upper-cased query selects the same users. */
  lemma UpperCaseQuery(users: seq<Network.User>, q: string)
    ensures FilteredUsers(users, Text.Upper(q)) == FilteredUsers(users, q)
  {
    Text.LowerOfUpper(q);
    CaseInsensitive(users, Text.Upper(q), q);
  }
}
