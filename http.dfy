/**
  The request a handler sees and the replies the routes send. Status
  codes and error bodies are those the handlers and the guard pass to
  `reply.status(...).send(...)`; a schema error thrown by zod is not caught
  by any handler and reaches Fastify's default error handler, which answers
  500.
 */
module Http {
  import opened Wrappers
  import opened Schema
  import opened Tables

  /** Which schema rejected the request: the route parameters are parsed
      before the body. */
  datatype ValidationTarget = Params | Body

  datatype Response =
    | Created
    | OkMeals(meals: seq<Meal>)
    | OkMeal(meal: Option<Meal>)
    | NoContent
    | NotFound
    | UnauthorizedSession
    | UnauthorizedUser
    | ValidationFailure(target: ValidationTarget)

  function StatusCode(r: Response): int
  {
    match r
    case Created => 201
    case OkMeals(_) => 200
    case OkMeal(_) => 200
    case NoContent => 204
    case NotFound => 404
    case UnauthorizedSession => 401
    case UnauthorizedUser => 401
    case ValidationFailure(_) => 500
  }

  /** The `error` field of the JSON body, for the replies that carry one. */
  function ErrorMessage(r: Response): Option<string>
  {
    match r
    case NotFound => Some("Meal not found")
    case UnauthorizedSession => Some("Unauthorized Session")
    case UnauthorizedUser => Some("Unauthorized User")
    case _ => None
  }

  /** The parts of a Fastify request the core uses. `user` is the field the
      session guard attaches; it starts out unset. */
  class Request {
    const sessionCookie: Option<string>
    const body: Option<Json>
    var user: Option<User>

    constructor (sessionCookie: Option<string>, body: Option<Json>)
      ensures this.sessionCookie == sessionCookie && this.body == body && user == None
    {
      this.sessionCookie := sessionCookie;
      this.body := body;
      user := None;
    }
  }
}
