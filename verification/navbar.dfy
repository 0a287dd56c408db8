/** The navbar's rule for choosing the displayed user, and its avatar. */
module Navbar {

  import opened Optional
  import opened Users
  import opened Seqs
  import opened AuthStore
  import Initials

  /** `{ id: u.id, name: u.name, email: u.email }`. */
  function ToLoggedIn(u: User): LoggedInUser
  {
    LoggedInUser(u.id, u.name, u.email)
  }

  /** `i` is the position of the first record with id `id`. */
  predicate IsFirstWithId(data: seq<User>, i: int, id: int)
  {
    0 <= i < |data| && data[i].id == id && forall j :: 0 <= j < i ==> data[j].id != id
  }

  /** The effect: when no user is set and the users are loaded, set the
      first user with id 1, if there is one. */
  function PickCurrentUser(a: Auth, data: Option<seq<User>>): (r: Auth)
    ensures a.user.Some? ==> r == a
    ensures data.None? ==> r == a
    ensures r != a ==> exists i :: IsFirstWithId(data.value, i, 1) && r.user == Some(ToLoggedIn(data.value[i]))
    ensures a.user.None? && data.Some? && (exists i :: 0 <= i < |data.value| && data.value[i].id == 1) ==>
      r.user.Some? && r.user.value.id == 1
    ensures data.Some? && (forall i :: 0 <= i < |data.value| ==> data.value[i].id != 1) ==> r == a
  {
    if a.user.None? && data.Some? then
      match FindIndex(data.value, HasId(1))
      case None => a
      case Some(i) =>
        assert IsFirstWithId(data.value, i, 1);
        SetUser(a, ToLoggedIn(data.value[i]))
    else a
  }

  /** Running the effect again changes nothing: a set user is never overwritten. */
  lemma PickIsIdempotent(a: Auth, data: Option<seq<User>>)
    ensures PickCurrentUser(PickCurrentUser(a, data), data) == PickCurrentUser(a, data)
  {
  }

  /** The avatar shows `initials(user?.name)`: "U" while no user is set. */
  function AvatarInitials(a: Auth): (r: string)
    ensures a.user.None? ==> r == "U"
    ensures a.user.Some? && a.user.value.name != "" ==> 1 <= |r| <= 2
    ensures a.user.Some? ==> r == Initials.Initials(Some(a.user.value.name))
  {
    Initials.Initials(match a.user case None => None case Some(u) => Some(u.name))
  }
}
