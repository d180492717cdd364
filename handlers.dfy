/**
 * The four handlers of the in-memory user store, as functions from the
 * current contents of `users` (and the request) to the new contents and
 * the HTTP response. The class in module Server runs the same steps in
 * place and is proved against these functions.
 */
module Handlers {
  import opened JsValues

  /** The JSON body of a response. */
  datatype Payload = One(user: Record) | Many(users: seq<Record>) | Message(text: string)

  datatype Response = Response(status: int, payload: Payload)

  /** The store after a request, and the response sent for it. */
  datatype Outcome = Outcome(users: seq<Record>, response: Response)

  const MissingFields := "Name and email are required"
  const AlreadyExists := "User already exists"
  const NotFound := "User not found"

  /** `!userData || !userData.name || !userData.email` is false. */
  predicate HasRequiredFields(body: Option<Record>)
  {
    body.Some? && Truthy(Get(body.value, "name")) && Truthy(Get(body.value, "email"))
  }

  /** Some stored record's email is `===` to `email`. */
  ghost predicate EmailTaken(users: seq<Record>, email: Option<Value>)
  {
    exists i :: 0 <= i < |users| && StrictEquals(Get(users[i], "email"), email)
  }

  /** No two stored records have `===` emails. */
  ghost predicate UniqueEmails(users: seq<Record>)
  {
    forall i, j :: 0 <= i < j < |users| ==> !StrictEquals(Get(users[i], "email"), Get(users[j], "email"))
  }

  /** `user.id === id`, where `id` is the result of `parseInt` (None for NaN, which equals nothing). */
  predicate HasId(user: Record, id: Option<int>)
  {
    id.Some? && StrictEquals(Get(user, "id"), Some(Num(id.value)))
  }

  ghost predicate NoneHasId(users: seq<Record>, id: Option<int>)
  {
    forall j :: 0 <= j < |users| ==> !HasId(users[j], id)
  }

  /** `i` is the index `findIndex` reports: the first record whose id matches. */
  ghost predicate IsFirstWithId(users: seq<Record>, id: Option<int>, i: int)
  {
    0 <= i < |users| && HasId(users[i], id) && forall j :: 0 <= j < i ==> !HasId(users[j], id)
  }

  /**
   * `users.findIndex(user => user[key] === target)`, with -1 as None:
   * the first index whose value at `key` is strictly equal to `target`.
   */
  function FirstMatch(users: seq<Record>, key: string, target: Option<Value>): (r: Option<nat>)
    ensures r.Some? ==> r.value < |users| && StrictEquals(Get(users[r.value], key), target)
    ensures r.Some? ==> forall j :: 0 <= j < r.value ==> !StrictEquals(Get(users[j], key), target)
    ensures r.None? ==> forall j :: 0 <= j < |users| ==> !StrictEquals(Get(users[j], key), target)
  {
    if |users| == 0 then None
    else if StrictEquals(Get(users[0], key), target) then Some(0)
    else match FirstMatch(users[1..], key, target)
      case None => None
      case Some(i) => Some(i + 1)
  }

  /** `users.findIndex(user => user.id === id)`; a NaN id (None) matches no record. */
  function FindById(users: seq<Record>, id: Option<int>): (r: Option<nat>)
    ensures r.Some? ==> IsFirstWithId(users, id, r.value)
    ensures r.None? ==> NoneHasId(users, id)
  {
    match id
    case None => None
    case Some(n) => FirstMatch(users, "id", Some(Num(n)))
  }

  /**
   * The record a successful save stores: the body, whose `id` has been
   * overwritten with the new id (`userData.id = id`), spread after `{ id }`.
   */
  function NewUser(body: Record, id: int): (r: Record)
    ensures r.Keys == body.Keys + {"id"}
    ensures r["id"] == Num(id)
    ensures forall k :: k in body && k != "id" ==> r[k] == body[k]
  {
    Spread(map["id" := Num(id)], body["id" := Num(id)])
  }

  /** GET /api/users: the whole array, unchanged. */
  function List(users: seq<Record>): (r: Outcome)
    ensures r.users == users
    ensures r.response.status == 200 && r.response.payload == Many(users)
  {
    Outcome(users, Response(200, Many(users)))
  }

  /** POST /api/save-user. */
  function Save(users: seq<Record>, body: Option<Record>): (r: Outcome)
    ensures r.response.status == 201 || r.response.status == 400
    ensures r.response.status == 201 <==> HasRequiredFields(body) && !EmailTaken(users, Get(body.value, "email"))
    ensures !HasRequiredFields(body) ==> r == Outcome(users, Response(400, Message(MissingFields)))
    ensures HasRequiredFields(body) && EmailTaken(users, Get(body.value, "email"))
            ==> r == Outcome(users, Response(400, Message(AlreadyExists)))
    ensures r.response.status == 201 ==>
              && |r.users| == |users| + 1
              && r.users[..|users|] == users
              && r.response.payload == One(r.users[|users|])
              && r.users[|users|].Keys == body.value.Keys + {"id"}
              && r.users[|users|]["id"] == Num(|users| + 1)
              && forall k :: k in body.value && k != "id" ==> r.users[|users|][k] == body.value[k]
    ensures UniqueEmails(users) ==> UniqueEmails(r.users)
  {
    if !HasRequiredFields(body) then
      Outcome(users, Response(400, Message(MissingFields)))
    else if FirstMatch(users, "email", Get(body.value, "email")).Some? then
      Outcome(users, Response(400, Message(AlreadyExists)))
    else
      var newUser := NewUser(body.value, |users| + 1);
      Outcome(users + [newUser], Response(201, One(newUser)))
  }

  /** PUT /api/update-user/:id, where `id` is `parseInt(req.body.id)`. */
  function Update(users: seq<Record>, body: Record, id: Option<int>): (r: Outcome)
    ensures r.response.status == 200 || r.response.status == 404
    ensures |r.users| == |users|
    ensures r.response.status == 404 <==> NoneHasId(users, id)
    ensures r.response.status == 404 ==> r == Outcome(users, Response(404, Message(NotFound)))
    ensures forall i :: IsFirstWithId(users, id, i) ==>
              && r.users == users[i := r.users[i]]
              && r.response == Response(200, One(r.users[i]))
              && r.users[i].Keys == users[i].Keys + body.Keys
              && (forall k :: k in body ==> r.users[i][k] == body[k])
              && (forall k :: k in users[i] && k !in body ==> r.users[i][k] == users[i][k])
  {
    match FindById(users, id)
    case None => Outcome(users, Response(404, Message(NotFound)))
    case Some(index) =>
      var merged := Spread(users[index], body);
      Outcome(users[index := merged], Response(200, One(merged)))
  }

  /** DELETE /api/delete-user/:id, where `id` is `parseInt(req.params.id)`. */
  function Delete(users: seq<Record>, id: Option<int>): (r: Outcome)
    ensures r.response.status == 200 || r.response.status == 404
    ensures r.response.status == 404 <==> NoneHasId(users, id)
    ensures r.response.status == 404 ==> r == Outcome(users, Response(404, Message(NotFound)))
    ensures forall i :: IsFirstWithId(users, id, i) ==>
              r == Outcome(users[..i] + users[i + 1..], Response(200, One(users[i])))
    ensures r.response.status == 200 ==>
              && |r.users| == |users| - 1
              && r.response.payload.One?
              && multiset(r.users) + multiset{r.response.payload.user} == multiset(users)
  {
    match FindById(users, id)
    case None => Outcome(users, Response(404, Message(NotFound)))
    case Some(index) =>
      assert users == users[..index] + [users[index]] + users[index + 1..];
      Outcome(users[..index] + users[index + 1..], Response(200, One(users[index])))
  }

  /** Removing one record never makes two remaining emails equal. */
  lemma DeleteKeepsEmailsUnique(users: seq<Record>, id: Option<int>)
    requires UniqueEmails(users)
    ensures UniqueEmails(Delete(users, id).users)
  {
  }
}
