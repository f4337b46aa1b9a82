/** UserManagement: a set of user ids with idempotent add and remove. */
module Users {

  datatype UserManagement = UserManagement(users: set<int>)

  /** `add_user` (`set.add`): afterwards the user is a member and no other
      user's membership changed; adding a member changes nothing. */
  function AddUser(m: UserManagement, userId: int): (r: UserManagement)
    ensures userId in r.users
    ensures forall u :: u != userId ==> (u in r.users <==> u in m.users)
    ensures userId in m.users ==> r == m
  {
    UserManagement(m.users + {userId})
  }

  /** `remove_user` (`set.discard`, so an absent user is not an error):
      afterwards the user is not a member and no other user's membership
      changed; removing a non-member changes nothing. */
  function RemoveUser(m: UserManagement, userId: int): (r: UserManagement)
    ensures userId !in r.users
    ensures forall u :: u != userId ==> (u in r.users <==> u in m.users)
    ensures userId !in m.users ==> r == m
  {
    UserManagement(m.users - {userId})
  }

  /** Adding twice is adding once; removing twice is removing once; removing
      an absent user, or adding a present one, changes nothing. */
  lemma AddRemoveIdempotent(m: UserManagement, userId: int)
    ensures AddUser(AddUser(m, userId), userId) == AddUser(m, userId)
    ensures RemoveUser(RemoveUser(m, userId), userId) == RemoveUser(m, userId)
    ensures userId !in m.users ==> RemoveUser(m, userId) == m
    ensures userId in m.users ==> AddUser(m, userId) == m
  {
  }

  /** Remove undoes an add of a user that was absent, and add undoes a
      remove of a user that was present. */
  lemma AddRemoveInverse(m: UserManagement, userId: int)
    ensures userId !in m.users ==> RemoveUser(AddUser(m, userId), userId) == m
    ensures userId in m.users ==> AddUser(RemoveUser(m, userId), userId) == m
  {
  }

  /** A nonempty set has a member, so a user can be picked from it. */
  lemma NonEmptyHasMember(s: set<int>)
    requires s != {}
    ensures exists u :: u in s
  {
    if forall u :: u !in s {
      assert false;
    }
  }

  /** `get_users` (`list(self.users)`): a list holding each member exactly
      once. Python fixes no order, so any order is allowed here. */
  method GetUsers(m: UserManagement) returns (r: seq<int>)
    ensures forall u :: u in r <==> u in m.users
    ensures forall i, j :: 0 <= i < j < |r| ==> r[i] != r[j]
    ensures |r| == |m.users|
  {
    r := [];
    var rest := m.users;
    while rest != {}
      invariant rest <= m.users
      invariant forall u :: u in r ==> u in m.users && u !in rest
      invariant forall u :: u in m.users && u !in rest ==> u in r
      invariant forall i, j :: 0 <= i < j < |r| ==> r[i] != r[j]
      invariant |r| + |rest| == |m.users|
      decreases |rest|
    {
      NonEmptyHasMember(rest);
      var user :| user in rest;
      r := r + [user];
      rest := rest - {user};
    }
  }
}
