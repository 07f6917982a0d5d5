/** The Users collection and its two handlers: POST /add-users, which refuses
    a second record for an email, and GET /user/:email. */
module Registry {
  import opened Documents

  /** The body of POST /add-users; `profile` holds the display fields (name,
      photo, ...), passed through unread. */
  datatype UserData = UserData(email: Option<string>, profile: map<string, string>)

  /** A stored user: the posted record plus the `_id` the driver generated. */
  datatype User = User(id: ObjectId, email: Option<string>, profile: map<string, string>)

  /** The position `findOne({ email })` returns: the first user, in natural
      order, whose email equals the query (null matching a missing email). */
  function FindFirst(users: seq<User>, email: Option<string>): (r: Option<nat>)
    ensures r.Some? ==> r.value < |users| && users[r.value].email == email
    ensures r.Some? ==> forall j | 0 <= j < r.value :: users[j].email != email
    ensures r.None? <==> forall j | 0 <= j < |users| :: users[j].email != email
  {
    if users == [] then None
    else if users[0].email == email then Some(0)
    else match FindFirst(users[1..], email)
      case None => None
      case Some(i) => Some(i + 1)
  }

  /** `findOne({ email })`: the matching record, or nothing. */
  function Lookup(users: seq<User>, email: Option<string>): (r: Option<User>)
    ensures r.None? <==> forall u | u in users :: u.email != email
    ensures r.Some? ==> exists i | 0 <= i < |users| :: users[i] == r.value && r.value.email == email
                          && forall j | 0 <= j < i :: users[j].email != email
  {
    match FindFirst(users, email)
    case None => None
    case Some(i) => Some(users[i])
  }

  /** At most one user per email (the absent email counting as one value). */
  predicate UniqueEmails(users: seq<User>)
  {
    forall i, j | 0 <= i < j < |users| :: users[i].email != users[j].email
  }

  /** POST /add-users: 409 when some user already holds the email, otherwise
      the record is appended unchanged under the new `_id`. */
  function Register(users: seq<User>, data: UserData, newId: ObjectId): (r: Outcome<seq<User>>)
    ensures r.status == Conflict <==> exists u | u in users :: u.email == data.email
    ensures r.status == Conflict ==> r.state == users
    ensures r.status != Conflict ==> r.status == Ok && r.state == users + [User(newId, data.email, data.profile)]
  {
    if Lookup(users, data.email).Some? then Outcome(Conflict, users)
    else Outcome(Ok, users + [User(newId, data.email, data.profile)])
  }

  /** On a registry with one record per email, the lookup finds a record
      exactly when the record is stored. */
  lemma LookupUnique(users: seq<User>, email: Option<string>, u: User)
    requires UniqueEmails(users)
    ensures Lookup(users, email) == Some(u) <==> u in users && u.email == email
  {
  }

  /** Registration keeps one record per email. */
  lemma RegisterKeepsUnique(users: seq<User>, data: UserData, newId: ObjectId)
    requires UniqueEmails(users)
    ensures UniqueEmails(Register(users, data, newId).state)
  {
  }

  /** Registering an email a second time is refused and changes nothing,
      whatever the first attempt answered. */
  lemma RegisterTwice(users: seq<User>, first: UserData, second: UserData, id1: ObjectId, id2: ObjectId)
    requires first.email == second.email
    ensures var r1 := Register(users, first, id1);
            Register(r1.state, second, id2) == Outcome(Conflict, r1.state)
  {
  }

  /** After a successful registration, GET /user/:email finds the new record. */
  lemma LookupAfterRegister(users: seq<User>, data: UserData, newId: ObjectId, email: string)
    requires data.email == Some(email)
    requires Register(users, data, newId).status == Ok
    ensures Lookup(Register(users, data, newId).state, Some(email)) == Some(User(newId, data.email, data.profile))
  {
    var s := Register(users, data, newId).state;
    assert s[|users|].email == Some(email);
    assert forall j | 0 <= j < |users| :: s[j] == users[j];
  }
}
