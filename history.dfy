/**
 * Sequences of requests against the store, and what holds of the store
 * after them. The id `users.length + 1` is unique only while nothing is
 * deleted, and the email check on save is the only guard against duplicate
 * emails: an update can still introduce one.
 */
module History {
  import opened JsValues
  import opened Handlers

  datatype Request =
    | SaveReq(body: Option<Record>)
    | UpdateReq(patch: Record, id: Option<int>)
    | DeleteReq(id: Option<int>)
    | ListReq

  /** The store after one request. */
  function Step(users: seq<Record>, req: Request): Outcome
  {
    match req
    case SaveReq(body) => Save(users, body)
    case UpdateReq(body, id) => Update(users, body, id)
    case DeleteReq(id) => Delete(users, id)
    case ListReq => List(users)
  }

  /** The store after a sequence of requests, handled in order. */
  function Run(users: seq<Record>, reqs: seq<Request>): seq<Record>
    decreases |reqs|
  {
    if reqs == [] then users else Run(Step(users, reqs[0]).users, reqs[1..])
  }

  /** Both records carry the same numeric id. */
  predicate SameNumericId(a: Record, b: Record)
  {
    "id" in a && "id" in b && a["id"].Num? && a["id"] == b["id"]
  }

  /** No two records carry the same numeric id, so `findIndex` by id matches at most one. */
  ghost predicate NumericIdsDistinct(users: seq<Record>)
  {
    forall i, j :: 0 <= i < j < |users| ==> !SameNumericId(users[i], users[j])
  }

  /** Every numeric id equals its record's position plus one. */
  ghost predicate IdsArePositions(users: seq<Record>)
  {
    forall i :: 0 <= i < |users| && "id" in users[i] && users[i]["id"].Num? ==> users[i]["id"].n == i + 1
  }

  /**
   * `id` is what `parseInt(body.id)` gives where that does not depend on
   * string parsing: NaN (None) for an absent, null or boolean id, the
   * number itself for a numeric id that is a safe integer. String and
   * object ids, and numbers beyond the safe range (whose decimal string may
   * be in exponent form), are unconstrained.
   */
  predicate ParsedFromBody(body: Record, id: Option<int>)
  {
    match Get(body, "id")
    case None => id.None?
    case Some(Null) => id.None?
    case Some(Bool(_)) => id.None?
    case Some(Num(n)) => SafeInteger(n) ==> id == Some(n)
    case Some(_) => true
  }

  /** A numeric id in the body, if there is one, is a safe integer. */
  predicate SafeBodyId(body: Record)
  {
    "id" in body && body["id"].Num? ==> SafeInteger(body["id"].n)
  }

  predicate SetsNoEmail(req: Request)
  {
    req.UpdateReq? ==> "email" !in req.patch
  }

  lemma StepKeepsEmailsUnique(users: seq<Record>, req: Request)
    requires UniqueEmails(users) && SetsNoEmail(req)
    ensures UniqueEmails(Step(users, req).users)
  {
  }

  /**
   * Saves, deletes, lists and updates whose body has no `email` never
   * leave two records with equal emails behind, starting from a store
   * without any.
   */
  lemma {:induction false} EmailsStayUnique(users: seq<Record>, reqs: seq<Request>)
    requires UniqueEmails(users)
    requires forall k :: 0 <= k < |reqs| ==> SetsNoEmail(reqs[k])
    ensures UniqueEmails(Run(users, reqs))
    decreases |reqs|
  {
    if reqs != [] {
      StepKeepsEmailsUnique(users, reqs[0]);
      EmailsStayUnique(Step(users, reqs[0]).users, reqs[1..]);
    }
  }

  /** An update whose body carries another record's email duplicates it. */
  lemma UpdateCanDuplicateEmail()
    ensures
      var ada := map["id" := Num(1), "name" := Str("Ada"), "email" := Str("ada@x.com")];
      var bob := map["id" := Num(2), "name" := Str("Bob"), "email" := Str("bob@x.com")];
      var body := map["id" := Num(2), "email" := Str("ada@x.com")];
      && UniqueEmails([ada, bob])
      && Update([ada, bob], body, Some(2)).response.status == 200
      && !UniqueEmails(Update([ada, bob], body, Some(2)).users)
  {
    var ada := map["id" := Num(1), "name" := Str("Ada"), "email" := Str("ada@x.com")];
    var bob := map["id" := Num(2), "name" := Str("Bob"), "email" := Str("bob@x.com")];
    var body := map["id" := Num(2), "email" := Str("ada@x.com")];
    assert IsFirstWithId([ada, bob], Some(2), 1);
    var after := Update([ada, bob], body, Some(2)).users;
    assert Get(after[0], "email") == Get(after[1], "email");
  }

  lemma StepKeepsIdsPositional(users: seq<Record>, req: Request)
    requires IdsArePositions(users)
    requires !req.DeleteReq?
    requires req.UpdateReq? ==> ParsedFromBody(req.patch, req.id) && SafeBodyId(req.patch)
    ensures IdsArePositions(Step(users, req).users)
  {
  }

  /**
   * Without deletes (and with every update's id parsed from its body, a
   * numeric body id being a safe integer), the
   * id `users.length + 1` given on save stays positional, so no two records
   * ever share a numeric id.
   */
  lemma {:induction false} IdsDistinctWithoutDeletes(users: seq<Record>, reqs: seq<Request>)
    requires IdsArePositions(users)
    requires forall k :: 0 <= k < |reqs| ==> !reqs[k].DeleteReq?
    requires forall k :: 0 <= k < |reqs| && reqs[k].UpdateReq? ==> ParsedFromBody(reqs[k].patch, reqs[k].id)
    requires forall k :: 0 <= k < |reqs| && reqs[k].UpdateReq? ==> SafeBodyId(reqs[k].patch)
    ensures IdsArePositions(Run(users, reqs))
    ensures NumericIdsDistinct(Run(users, reqs))
    decreases |reqs|
  {
    if reqs == [] {
      forall i, j | 0 <= i < j < |users|
        ensures !SameNumericId(users[i], users[j])
      {
      }
    } else {
      StepKeepsIdsPositional(users, reqs[0]);
      IdsDistinctWithoutDeletes(Step(users, reqs[0]).users, reqs[1..]);
    }
  }

  /** A save of a complete body whose email no record holds appends the new record. */
  lemma SaveAppends(users: seq<Record>, body: Record)
    requires HasRequiredFields(Some(body))
    requires forall i :: 0 <= i < |users| ==> !StrictEquals(Get(users[i], "email"), Get(body, "email"))
    ensures Save(users, Some(body)).users == users + [NewUser(body, |users| + 1)]
  {
  }

  /** The record a save stores carries the id it was given. */
  lemma NewUserHasId(body: Record, id: int)
    ensures "id" in NewUser(body, id) && NewUser(body, id)["id"] == Num(id)
  {
  }

  /** Unfolds one request of a history. */
  lemma RunFirst(users: seq<Record>, req: Request, rest: seq<Request>)
    ensures Run(users, [req] + rest) == Run(Step(users, req).users, rest)
  {
  }

  /** The store after two saves, a delete of the first record and a third save. */
  lemma SaveSaveDeleteSave(a: Record, b: Record, c: Record)
    requires HasRequiredFields(Some(a)) && HasRequiredFields(Some(b)) && HasRequiredFields(Some(c))
    requires !StrictEquals(Get(a, "email"), Get(b, "email"))
    requires !StrictEquals(Get(b, "email"), Get(c, "email"))
    ensures Run([], [SaveReq(Some(a)), SaveReq(Some(b)), DeleteReq(Some(1)), SaveReq(Some(c))])
            == [NewUser(b, 2), NewUser(c, 2)]
  {
    var s1 := [NewUser(a, 1)];
    var s2 := s1 + [NewUser(b, 2)];
    var s3 := [NewUser(b, 2)];
    var s4 := s3 + [NewUser(c, 2)];
    SaveAppends([], a);
    SaveAppends(s1, b);
    assert IsFirstWithId(s2, Some(1), 0);
    assert s2[..0] + s2[1..] == s3;
    SaveAppends(s3, c);
    RunFirst([], SaveReq(Some(a)), [SaveReq(Some(b)), DeleteReq(Some(1)), SaveReq(Some(c))]);
    RunFirst(s1, SaveReq(Some(b)), [DeleteReq(Some(1)), SaveReq(Some(c))]);
    RunFirst(s2, DeleteReq(Some(1)), [SaveReq(Some(c))]);
    RunFirst(s3, SaveReq(Some(c)), []);
  }

  /**
   * After saving ids 1 and 2 and deleting id 1, the next save is given id 2
   * again: `users.length + 1` is not unique once a delete has happened.
   */
  lemma DeleteThenSaveReusesId(a: Record, b: Record, c: Record)
    requires HasRequiredFields(Some(a)) && HasRequiredFields(Some(b)) && HasRequiredFields(Some(c))
    requires !StrictEquals(Get(a, "email"), Get(b, "email"))
    requires !StrictEquals(Get(b, "email"), Get(c, "email"))
    ensures
      var users := Run([], [SaveReq(Some(a)), SaveReq(Some(b)), DeleteReq(Some(1)), SaveReq(Some(c))]);
      |users| == 2 && SameNumericId(users[0], users[1]) && !NumericIdsDistinct(users)
  {
    SaveSaveDeleteSave(a, b, c);
    NewUserHasId(b, 2);
    NewUserHasId(c, 2);
  }

  /**
   * Deleting the id a save has just given out undoes that save, and answers
   * with the same record, provided no earlier record already held that id.
   */
  lemma SaveThenDeleteRestores(users: seq<Record>, body: Option<Record>)
    requires Save(users, body).response.status == 201
    requires NoneHasId(users, Some(|users| + 1))
    ensures Delete(Save(users, body).users, Some(|users| + 1)).users == users
    ensures Delete(Save(users, body).users, Some(|users| + 1)).response.payload == Save(users, body).response.payload
  {
  }

  /** While the ids are positional, no record already holds the id a save gives out. */
  lemma PositionalIdsLeaveNextIdFree(users: seq<Record>)
    requires IdsArePositions(users)
    ensures NoneHasId(users, Some(|users| + 1))
  {
  }

  /**
   * Repeating an update changes nothing more, when the body carries the
   * numeric id it is looked up by. (A body without an id is also covered;
   * the handler parses its id to NaN, so both updates answer 404.)
   */
  lemma UpdateIsIdempotent(users: seq<Record>, body: Record, id: Option<int>)
    requires "id" in body ==> body["id"].Num? && id == Some(body["id"].n)
    ensures Update(Update(users, body, id).users, body, id) == Update(users, body, id)
  {
    var once := Update(users, body, id);
    match FindById(users, id)
    case None =>
    case Some(index) =>
      assert IsFirstWithId(users, id, index);
      assert IsFirstWithId(once.users, id, index);
      assert Spread(once.users[index], body) == once.users[index];
  }
}
