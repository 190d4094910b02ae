/**
  The four handlers of `mealsRoutes`. Each runs the session guard first
  and, when the guard replies, returns that reply without touching the
  meals table. The GET routes only read; POST and PUT write through the
  database's insert and update.
 */
module MealsRoutes {
  import opened Wrappers
  import opened Schema
  import opened Tables
  import opened Http
  import opened Session

  /** `POST /`. `newId` is the value `randomUUID()` yields: a UUID not yet
      used as a meal id. `toMillis` is `new Date(val).getTime()`. */
  method CreateMeal(db: Database, req: Request, newId: string, toMillis: string -> int) returns (resp: Response)
    requires db.Valid()
    requires IsUuid(newId) && newId !in Ids(db.meals)
    modifies db, req
    ensures db.Valid() && db.users == old(db.users)
    ensures ResolveSession(db.users, req.sessionCookie).Failure? ==>
              && resp == AuthReply(ResolveSession(db.users, req.sessionCookie).error)
              && db.meals == old(db.meals) && req.user == old(req.user)
    ensures ResolveSession(db.users, req.sessionCookie).Success? ==>
              req.user == Some(ResolveSession(db.users, req.sessionCookie).value)
    ensures ResolveSession(db.users, req.sessionCookie).Success? && ParseMealBody(req.body).None? ==>
              resp == ValidationFailure(Body) && db.meals == old(db.meals)
    ensures ResolveSession(db.users, req.sessionCookie).Success? && ParseMealBody(req.body).Some? ==>
              && resp == Created
              && db.meals == old(db.meals) + [NewMeal(newId, ParseMealBody(req.body).value,
                                                      ResolveSession(db.users, req.sessionCookie).value.id, toMillis)]
  {
    var guard := CheckSessionIdExists(db, req);
    if guard.Some? {
      return guard.value;
    }
    var body := ParseMealBody(req.body);
    if body.None? {
      return ValidationFailure(Body);
    }
    var user := req.user.value;
    db.Insert(NewMeal(newId, body.value, user.id, toMillis));
    resp := Created;
  }

  /** `GET /`: the session user's meals, most recent first. */
  method ListMeals(db: Database, req: Request) returns (resp: Response)
    requires db.Valid()
    modifies req
    ensures ResolveSession(db.users, req.sessionCookie).Failure? ==>
              resp == AuthReply(ResolveSession(db.users, req.sessionCookie).error) && req.user == old(req.user)
    ensures ResolveSession(db.users, req.sessionCookie).Success? ==>
              && req.user == Some(ResolveSession(db.users, req.sessionCookie).value)
              && resp == OkMeals(ListForOwner(db.meals, req.user.value.id))
  {
    var guard := CheckSessionIdExists(db, req);
    if guard.Some? {
      return guard.value;
    }
    resp := OkMeals(ListForOwner(db.meals, req.user.value.id));
  }

  /** `GET /:mealId`: a point lookup by id, whoever owns the row. A missing
      row is answered with success and no meal, never with 404. */
  method GetMeal(db: Database, req: Request, mealId: string) returns (resp: Response)
    requires db.Valid()
    modifies req
    ensures resp != NotFound
    ensures ResolveSession(db.users, req.sessionCookie).Failure? ==>
              resp == AuthReply(ResolveSession(db.users, req.sessionCookie).error) && req.user == old(req.user)
    ensures ResolveSession(db.users, req.sessionCookie).Success? ==>
              req.user == Some(ResolveSession(db.users, req.sessionCookie).value)
    ensures ResolveSession(db.users, req.sessionCookie).Success? && !IsUuid(mealId) ==>
              resp == ValidationFailure(Params)
    ensures ResolveSession(db.users, req.sessionCookie).Success? && IsUuid(mealId) ==>
              resp == OkMeal(FindById(db.meals, mealId))
  {
    var guard := CheckSessionIdExists(db, req);
    if guard.Some? {
      return guard.value;
    }
    var id := ParseMealId(mealId);
    if id.None? {
      return ValidationFailure(Params);
    }
    resp := OkMeal(FindById(db.meals, id.value));
  }

  /** `PUT /:mealId`: validates the id, then the body, then checks that the
      row exists; only then overwrites its four fields. No ownership check
      is made. */
  method UpdateMeal(db: Database, req: Request, mealId: string, toMillis: string -> int) returns (resp: Response)
    requires db.Valid()
    modifies db, req
    ensures db.Valid() && db.users == old(db.users)
    ensures ResolveSession(db.users, req.sessionCookie).Failure? ==>
              && resp == AuthReply(ResolveSession(db.users, req.sessionCookie).error)
              && db.meals == old(db.meals) && req.user == old(req.user)
    ensures ResolveSession(db.users, req.sessionCookie).Success? ==>
              req.user == Some(ResolveSession(db.users, req.sessionCookie).value)
    ensures ResolveSession(db.users, req.sessionCookie).Success? && !IsUuid(mealId) ==>
              resp == ValidationFailure(Params) && db.meals == old(db.meals)
    ensures ResolveSession(db.users, req.sessionCookie).Success? && IsUuid(mealId) && ParseMealBody(req.body).None? ==>
              resp == ValidationFailure(Body) && db.meals == old(db.meals)
    ensures ResolveSession(db.users, req.sessionCookie).Success? && IsUuid(mealId) && ParseMealBody(req.body).Some? ==>
              if mealId !in old(Ids(db.meals))
              then resp == NotFound && db.meals == old(db.meals)
              else resp == NoContent &&
                   db.meals == UpdateWhereId(old(db.meals), mealId, ParseMealBody(req.body).value, toMillis)
  {
    var guard := CheckSessionIdExists(db, req);
    if guard.Some? {
      return guard.value;
    }
    var id := ParseMealId(mealId);
    if id.None? {
      return ValidationFailure(Params);
    }
    var body := ParseMealBody(req.body);
    if body.None? {
      return ValidationFailure(Body);
    }
    var meal := FindById(db.meals, id.value);
    if meal.None? {
      return NotFound;
    }
    db.UpdateById(id.value, body.value, toMillis);
    resp := NoContent;
  }

  const Lunch := MealBody("Lunch", "Rice and beans", true, "2024-01-01T12:00:00")

  const SampleId := "123e4567-e89b-12d3-a456-426614174000"

  lemma SampleIdIsUuid()
    ensures IsUuid(SampleId)
  {
  }

  /** A client of the handlers: a signed-in user posts a lunch, and the
      table then holds exactly the row built from it. */
  method CreateScenario(toMillis: string -> int) returns (db: Database)
    ensures db.users == [User("user-a", "cookie-a")]
    ensures db.meals == [NewMeal(SampleId, Lunch, "user-a", toMillis)]
  {
    var alice := User("user-a", "cookie-a");
    db := new Database([alice], []);
    var post := new Request(Some("cookie-a"), Some(EncodeMealBody(Lunch)));
    assert ResolveSession(db.users, post.sessionCookie) == Success(alice) by {
      assert "cookie-a" != "";
    }
    assert ParseMealBody(post.body) == Some(Lunch) by {
      ParseEncodeRoundTrip(Lunch);
    }
    SampleIdIsUuid();
    var created := CreateMeal(db, post, SampleId, toMillis);
    assert created == Created;
  }

  /** Continuing the scenario: the same user lists their meals and gets
      exactly the lunch, with the supplied name and the derived timestamp. */
  method CreateThenListScenario(toMillis: string -> int)
  {
    var db := CreateScenario(toMillis);
    var get := new Request(Some("cookie-a"), None);
    assert ResolveSession(db.users, get.sessionCookie).Success? by {
      assert "cookie-a" != "";
    }
    var listed := ListMeals(db, get);
    ListOfOneRow(NewMeal(SampleId, Lunch, "user-a", toMillis));
    assert listed.OkMeals? && |listed.meals| == 1;
    assert listed.meals[0].name == "Lunch" && listed.meals[0].date == toMillis("2024-01-01T12:00:00");
  }

  /** A client of the guard: an unknown token and a missing cookie get the
      two different 401 replies. */
  method RejectedSessionScenario()
  {
    var db := new Database([User("user-a", "cookie-a")], []);
    assert "cookie-b" != "" && "cookie-b" != "cookie-a";
    var stranger := new Request(Some("cookie-b"), None);
    var denied := ListMeals(db, stranger);
    assert denied == UnauthorizedUser;
    var anonymous := new Request(None, None);
    denied := ListMeals(db, anonymous);
    assert denied == UnauthorizedSession;
  }
}
