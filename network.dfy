/**
 The researcher network: profiles mapped to network users, with initials for
 avatars and a random achievements badge, and the client-side follow toggle
 over the user list. The random numbers are parameters in [0, 1).
 */
module Network {
  import opened Wrappers
  import Text

  datatype Profile = Profile(id: string, fullName: Option<string>, fieldOfStudy: Option<string>)

  /** A card of the network tab; ids compare with strict equality, so a number never equals a string. */
  datatype User = User(id: Text.Id, name: string, role: string, avatar: string, following: bool, achievements: int, online: bool)

  /** `getInitials`: '??' for a missing or empty name, otherwise up to two upper-cased word initials. */
  function GetInitials(name: Option<string>): (r: string)
    ensures name.None? || name.value == "" ==> r == "??"
    ensures name.Some? && name.value != "" ==> r == Text.Initials(name.value)
    ensures |r| <= 2
  {
    if name.None? || name.value == "" then "??" else Text.Initials(name.value)
  }

  /** The initials of a two-word name, and the fallback for no name. */
  lemma GetInitialsExamples()
    ensures GetInitials(None) == "??" && GetInitials(Some("")) == "??"
    ensures GetInitials(Some(Text.Join(["ada", "lovelace"]))) == "AL"
  {
    var ws := ["ada", "lovelace"];
    Text.InitialsOfWords(ws);
    assert ws[1..] == ["lovelace"];
    assert Text.FirstLetters(ws) == "al";
    assert Text.Upper("al") == "AL";
  }

  /** The mock achievements count drawn from a random `r` in [0, 1): a whole number from 1 to 20. */
  function Achievements(r: real): (a: int)
    requires 0.0 <= r < 1.0
    ensures 1 <= a <= 20
  {
    (r * 20.0).Floor + 1
  }

  /** The profile query: an error, or the non-admin profiles. */
  datatype Query = QueryError | Profiles(profiles: seq<Profile>)

  ghost predicate Draws(q: Query, draws: seq<real>) {
    q.Profiles? ==> |draws| == |q.profiles| && forall k :: 0 <= k < |draws| ==> 0.0 <= draws[k] < 1.0
  }

  function ToUser(p: Profile, draw: real): (u: User)
    requires 0.0 <= draw < 1.0
    ensures u.id == Text.Str(p.id)
    ensures u.name == (if p.fullName.Some? && p.fullName.value != "" then p.fullName.value else "Anonymous Researcher")
    ensures u.role == (if p.fieldOfStudy.Some? && p.fieldOfStudy.value != "" then p.fieldOfStudy.value else "Researcher")
    ensures u.avatar == GetInitials(p.fullName)
    ensures !u.following && !u.online && 1 <= u.achievements <= 20
  {
    User(Text.Str(p.id), Text.OrDefault(p.fullName, "Anonymous Researcher"),
         Text.OrDefault(p.fieldOfStudy, "Researcher"), GetInitials(p.fullName),
         false, Achievements(draw), false)
  }

  /** `getNetworkUsers`: nothing on a query error, otherwise one user per profile, in order. */
  function GetNetworkUsers(q: Query, draws: seq<real>): (us: seq<User>)
    requires Draws(q, draws)
    ensures q.QueryError? ==> us == []
    ensures q.Profiles? ==> |us| == |q.profiles| && forall k :: 0 <= k < |us| ==> us[k] == ToUser(q.profiles[k], draws[k])
  {
    match q
    case QueryError => []
    case Profiles(ps) => seq(|ps|, k requires 0 <= k < |ps| => ToUser(ps[k], draws[k]))
  }

  /** The list after `toggleFollow(id)`. */
  function Toggled(users: seq<User>, id: Text.Id): (r: seq<User>)
    ensures |r| == |users|
    ensures forall k :: 0 <= k < |users| ==>
      && r[k].following == (if users[k].id == id then !users[k].following else users[k].following)
      && r[k].(following := users[k].following) == users[k]
  {
    seq(|users|, k requires 0 <= k < |users| =>
      if users[k].id == id then users[k].(following := !users[k].following) else users[k])
  }

  /** Toggling the same id twice restores the list. */
  lemma ToggleTwiceRestores(users: seq<User>, id: Text.Id)
    ensures Toggled(Toggled(users, id), id) == users
  {
  }

  /** An id no user has leaves the list unchanged. */
  lemma ToggleAbsentId(users: seq<User>, id: Text.Id)
    requires forall k :: 0 <= k < |users| ==> users[k].id != id
    ensures Toggled(users, id) == users
  {
  }

  /** Toggles of two ids commute. */
  lemma TogglesCommute(users: seq<User>, a: Text.Id, b: Text.Id)
    ensures Toggled(Toggled(users, a), b) == Toggled(Toggled(users, b), a)
  {
  }

  /** Freshly loaded users follow nobody; a toggle follows exactly the users with that id. */
  lemma ToggleFreshUsers(q: Query, draws: seq<real>, id: Text.Id)
    requires Draws(q, draws) && q.Profiles?
    ensures var r := Toggled(GetNetworkUsers(q, draws), id);
      forall k :: 0 <= k < |r| ==> (r[k].following <==> id == Text.Str(q.profiles[k].id))
  {
  }

  /** The user list held by the network page. */
  class NetworkClient {
    var users: seq<User>

    constructor (initialUsers: seq<User>)
      ensures users == initialUsers
    {
      users := initialUsers;
    }

    method ToggleFollow(id: Text.Id)
      modifies this
      ensures users == Toggled(old(users), id)
    {
      users := Toggled(users, id);
    }
  }
}
