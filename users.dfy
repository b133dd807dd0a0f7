/** The accounts and the follow relation (backend/users/models.py). */
module Users {
  import opened Wrappers

  const EmailMaxLength := 250
  const PersonNameMaxLength := 100

  /** A user account. `__str__` of a user is its username. */
  datatype User = User(id: nat, email: string, username: string, firstName: string, lastName: string)

  /** A follow edge: `user` follows `author`. */
  datatype Subscribe = Subscribe(user: nat, author: nat)

  /** USERNAME_FIELD: an account is identified at login by its email. */
  function LoginKey(u: User): string
  {
    u.email
  }

  predicate FieldsOk(u: User)
  {
    |u.email| <= EmailMaxLength && |u.firstName| <= PersonNameMaxLength && |u.lastName| <= PersonNameMaxLength
  }

  predicate HasUser(users: seq<User>, id: nat)
  {
    exists u :: u in users && u.id == id
  }

  /** The account with primary key `id`, if any. */
  function FindUser(users: seq<User>, id: nat): (r: Option<User>)
    ensures r.Some? <==> HasUser(users, id)
    ensures r.Some? ==> r.value in users && r.value.id == id
  {
    if users == [] then None
    else if users[0].id == id then Some(users[0])
    else
      assert users == [users[0]] + users[1..];
      FindUser(users[1..], id)
  }

  /** The storage constraints of the user table: field lengths, primary key
      and `unique=True` on email. */
  ghost predicate UsersOk(users: seq<User>)
  {
    && (forall u :: u in users ==> FieldsOk(u))
    && (forall i, j :: 0 <= i < j < |users| ==> users[i].id != users[j].id)
    && (forall i, j :: 0 <= i < j < |users| ==> users[i].email != users[j].email)
  }

  /** The account a login identifier names, if any. */
  function FindByLogin(users: seq<User>, login: string): (r: Option<User>)
    requires UsersOk(users)
    ensures r.Some? <==> exists u :: u in users && LoginKey(u) == login
    ensures r.Some? ==> r.value in users && LoginKey(r.value) == login
    ensures r.Some? ==> forall u :: u in users && LoginKey(u) == login ==> u == r.value
  {
    if users == [] then None
    else if LoginKey(users[0]) == login then
      assert forall j :: 0 < j < |users| ==> users[j].email != users[0].email;
      Some(users[0])
    else
      assert users == [users[0]] + users[1..];
      FindByLogin(users[1..], login)
  }

  /** The Meta constraint `unique_subscription`: at most one row per
      (user, author) pair. */
  ghost predicate SubscriptionsUnique(subs: seq<Subscribe>)
  {
    forall s :: multiset(subs)[s] <= 1
  }

  /** `f'{self.user} подписан на {self.author}'`, each user shown by its username. */
  function SubscribeStr(follower: User, author: User): (r: string)
    ensures |r| == |follower.username| + |" подписан на "| + |author.username|
    ensures r[..|follower.username|] == follower.username
    ensures r[|r| - |author.username|..] == author.username
    ensures r[|follower.username|..|r| - |author.username|] == " подписан на "
  {
    follower.username + " подписан на " + author.username
  }
}
