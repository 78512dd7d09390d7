/** The in-memory user store of the admin application. */
module UserStore {
  import opened Common

  datatype User = User(id: string, username: string, passwordHash: string)

  datatype CreateError = UserAlreadyExists | UsersAlreadyExist

  datatype Created = Ok(user: User) | Refused(error: CreateError)

  // The store is a dictionary from id to record; its values are listed here in
  // insertion order, which is the order a name lookup goes through.

  predicate HasId(users: seq<User>, id: string) {
    exists u :: u in users && u.id == id
  }

  predicate HasName(users: seq<User>, name: string) {
    exists u :: u in users && u.username == name
  }

  /** One entry for each id, and no two users with one name. */
  ghost predicate Unambiguous(users: seq<User>) {
    forall i, j :: 0 <= i < j < |users| ==> users[i].id != users[j].id && users[i].username != users[j].username
  }

  function WithoutUser(users: seq<User>, id: string): seq<User> {
    if users == [] then []
    else if users[0].id == id then users[1..]
    else [users[0]] + WithoutUser(users[1..], id)
  }

  function SetHash(users: seq<User>, id: string, hash: string): seq<User> {
    seq(|users|, i requires 0 <= i < |users| =>
      if users[i].id == id then users[i].(passwordHash := hash) else users[i])
  }

  lemma {:induction false} WithoutUserIs(users: seq<User>, id: string)
    requires Unambiguous(users)
    ensures Unambiguous(WithoutUser(users, id)) && !HasId(WithoutUser(users, id), id)
    ensures forall u :: u in WithoutUser(users, id) <==> u in users && u.id != id
  {
    if users != [] {
      var rest := users[1..];
      WithoutUserIs(rest, id);
      forall u | u in rest
        ensures u.id != users[0].id && u.username != users[0].username
      {
        var i :| 0 <= i < |rest| && rest[i] == u;
        assert users[i + 1] == u;
      }
      if users[0].id != id {
        PrependIsUnambiguous(users[0], WithoutUser(rest, id));
      }
    }
  }

  lemma PrependIsUnambiguous(u: User, rest: seq<User>)
    requires Unambiguous(rest) && forall v :: v in rest ==> v.id != u.id && v.username != u.username
    ensures Unambiguous([u] + rest)
  {
    var all := [u] + rest;
    forall i, j | 0 <= i < j < |all|
      ensures all[i].id != all[j].id && all[i].username != all[j].username
    {
      assert all[j] == rest[j - 1] && rest[j - 1] in rest;
    }
  }

  lemma SetHashIs(users: seq<User>, id: string, hash: string)
    requires Unambiguous(users)
    ensures Unambiguous(SetHash(users, id, hash))
    ensures forall k :: HasId(SetHash(users, id, hash), k) <==> HasId(users, k)
    ensures forall k :: HasName(SetHash(users, id, hash), k) <==> HasName(users, k)
  {
    var after := SetHash(users, id, hash);
    forall i | 0 <= i < |users|
      ensures after[i] in after && users[i] in users
      ensures after[i].id == users[i].id && after[i].username == users[i].username
    {
    }
  }

  class MemoryUserStore {
    var users: seq<User>

    constructor ()
      ensures users == []
    {
      users := [];
    }

    method GetById(id: string) returns (r: Option<User>)
      requires Unambiguous(users)
      ensures forall u :: r == Some(u) <==> u in users && u.id == id
    {
      for i := 0 to |users|
        invariant forall x :: 0 <= x < i ==> users[x].id != id
      {
        if users[i].id == id {
          return Some(users[i]);
        }
      }
      r := None;
    }

    method GetByUsername(name: string) returns (r: Option<User>)
      requires Unambiguous(users)
      ensures forall u :: r == Some(u) <==> u in users && u.username == name
    {
      for i := 0 to |users|
        invariant forall x :: 0 <= x < i ==> users[x].username != name
      {
        if users[i].username == name {
          return Some(users[i]);
        }
      }
      r := None;
    }

    /** Adds a user under a name nobody has; the id is a fresh one. */
    method Create(name: string, hash: string, newId: string) returns (r: Created)
      requires Unambiguous(users) && !HasId(users, newId)
      modifies this
      ensures Unambiguous(users)
      ensures r == if HasName(old(users), name) then Refused(UserAlreadyExists) else Ok(User(newId, name, hash))
      ensures users == if r.Ok? then old(users) + [r.user] else old(users)
    {
      for i := 0 to |users|
        invariant forall x :: 0 <= x < i ==> users[x].username != name
      {
        if users[i].username == name {
          return Refused(UserAlreadyExists);
        }
      }
      r := Ok(User(newId, name, hash));
      users := users + [r.user];
    }

    /** Adds the first user, and only the first. */
    method CreateFirst(name: string, hash: string, newId: string) returns (r: Created)
      requires Unambiguous(users)
      modifies this
      ensures Unambiguous(users)
      ensures r == if old(users) != [] then Refused(UsersAlreadyExist) else Ok(User(newId, name, hash))
      ensures users == if r.Ok? then [r.user] else old(users)
    {
      if |users| != 0 {
        return Refused(UsersAlreadyExist);
      }
      r := Ok(User(newId, name, hash));
      users := [r.user];
    }

    method UpdatePasswordHash(id: string, hash: string) returns (r: Option<User>)
      requires Unambiguous(users)
      modifies this
      ensures Unambiguous(users) && users == SetHash(old(users), id, hash)
      ensures forall u :: r == Some(u) <==> u in users && u.id == id
    {
      SetHashIs(users, id, hash);
      for i := 0 to |users|
        invariant users == old(users)
        invariant forall x :: 0 <= x < i ==> users[x].id != id
      {
        if users[i].id == id {
          users := users[i := users[i].(passwordHash := hash)];
          assert users == SetHash(old(users), id, hash);
          return Some(users[i]);
        }
      }
      assert users == SetHash(users, id, hash);
      r := None;
    }

    method Delete(id: string) returns (gone: bool)
      requires Unambiguous(users)
      modifies this
      ensures Unambiguous(users) && users == WithoutUser(old(users), id) && gone == HasId(old(users), id)
    {
      WithoutUserIs(users, id);
      for i := 0 to |users|
        invariant users == old(users)
        invariant forall x :: 0 <= x < i ==> users[x].id != id
      {
        if users[i].id == id {
          WithoutFrom(users, id, i);
          users := users[..i] + users[i + 1..];
          return true;
        }
      }
      WithoutNobody(users, id);
      gone := false;
    }
  }

  lemma {:induction false} WithoutFrom(users: seq<User>, id: string, i: nat)
    requires i < |users| && users[i].id == id && forall x :: 0 <= x < i ==> users[x].id != id
    ensures WithoutUser(users, id) == users[..i] + users[i + 1..]
  {
    if i > 0 {
      WithoutFrom(users[1..], id, i - 1);
      assert users[..i] == [users[0]] + users[1..][..i - 1];
    }
  }

  lemma {:induction false} WithoutNobody(users: seq<User>, id: string)
    requires forall x :: 0 <= x < |users| ==> users[x].id != id
    ensures WithoutUser(users, id) == users
  {
    if users != [] {
      WithoutNobody(users[1..], id);
    }
  }
}
