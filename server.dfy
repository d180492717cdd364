/**
 * The module-level array `users` and the handlers that read and change it
 * in place: `push` on save, an indexed assignment on update, `splice` on
 * delete. Each handler returns the response it sends, and its new state
 * and response are those that module Handlers specifies.
 */
module Server {
  import opened JsValues
  import opened Handlers

  class UserStore {
    /** The in-memory user store, in insertion order. */
    var users: seq<Record>

    /** `let users = []`. */
    constructor ()
      ensures users == []
    {
      users := [];
    }

    /** GET /api/users: answers with the whole array and changes nothing. */
    method ListUsers() returns (res: Response)
      ensures res.status == 200 && res.payload.Many? && res.payload.users == users
      ensures Outcome(users, res) == List(users)
    {
      res := Response(200, Many(users));
    }

    /** POST /api/save-user. */
    method SaveUser(body: Option<Record>) returns (res: Response)
      modifies this
      ensures Outcome(users, res) == Save(old(users), body)
    {
      if body.None? || !Truthy(Get(body.value, "name")) || !Truthy(Get(body.value, "email")) {
        return Response(400, Message(MissingFields));
      }
      var userData := body.value;
      var existingUser := FirstMatch(users, "email", Get(userData, "email"));
      if existingUser.Some? {
        return Response(400, Message(AlreadyExists));
      }
      var id := |users| + 1;
      userData := userData["id" := Num(id)];
      var newUser := Spread(map["id" := Num(id)], userData);
      users := users + [newUser];
      res := Response(201, One(newUser));
    }

    /** PUT /api/update-user/:id; `id` is `parseInt(req.body.id)`, None when that is NaN. */
    method UpdateUser(body: Record, id: Option<int>) returns (res: Response)
      modifies this
      ensures Outcome(users, res) == Update(old(users), body, id)
    {
      var index := FindById(users, id);
      if index.Some? {
        users := users[index.value := Spread(users[index.value], body)];
        res := Response(200, One(users[index.value]));
      } else {
        res := Response(404, Message(NotFound));
      }
    }

    /** DELETE /api/delete-user/:id; `id` is `parseInt(req.params.id)`, None when that is NaN. */
    method DeleteUser(id: Option<int>) returns (res: Response)
      modifies this
      ensures Outcome(users, res) == Delete(old(users), id)
    {
      var index := FindById(users, id);
      if index.Some? {
        var deletedUser := users[index.value];
        users := users[..index.value] + users[index.value + 1..];
        res := Response(200, One(deletedUser));
      } else {
        res := Response(404, Message(NotFound));
      }
    }
  }
}
