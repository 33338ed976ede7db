/**
 * The HTTP routes of the Drink API and its error handlers. A view function either responds
 * with a status and a JSON body or lets an exception leave it; the table is a `DrinkTable`
 * and the request is its `Authorization` header and JSON body.
 */
module Api {
  import opened Wrappers
  import opened Auth
  import opened Models

  /** A JSON response body. */
  datatype Body =
    | ShortDrinks(shortDrinks: seq<ShortView>)  // {"success": true, "drinks": [short...]}
    | LongDrinks(longDrinks: seq<LongView>)     // {"success": true, "drinks": [long...]}
    | OneDrink(drink: LongView)                 // {"success": true, "drinks": long}
    | DeletedId(id: int)                        // {"success": true, "id": id}
    | ErrorBody(error: int, message: string)    // {"success": false, "error": error, "message": message}
  {
    predicate Success() { !ErrorBody? }
  }

  datatype Response = Response(status: int, body: Body)

  /** The exceptions a view function can raise. */
  datatype Exception =
    | AuthFailure(authError: AuthError)
    | JwtLibraryError
    | NotFoundError
    | IntegrityFailure
    | RecipeNotIterable

  /** How a view function ends: with a response, or with an exception leaving it. */
  datatype ViewResult = Responded(response: Response) | Escaped(exception: Exception)

  /** The JSON body of a POST or PATCH: `{title?, recipe?}`. */
  datatype DrinkPayload = DrinkPayload(title: Option<string>, recipe: Option<Recipe>)

  datatype Request = Request(authorization: Option<string>, json: DrinkPayload)

  datatype Verb = DELETE | PATCH

  function FromRaised(raised: Raised): Exception {
    match raised
    case Auth(e) => AuthFailure(e)
    case JoseError => JwtLibraryError
  }

  // ----------------------------------------------------------------------------------------
  // Error handlers

  /** The handler registered for `code`, other than the one for 500: each answers with its
      own code as both the status and the body's `error`. */
  function ErrorHandler(code: int): (r: Option<Response>)
    ensures r.Some? <==> code in {400, 401, 403, 404, 405, 422}
    ensures r.Some? ==>
      r.value.status == code && r.value.body.ErrorBody? && r.value.body.error == code
  {
    if code == 422 then Some(Response(422, ErrorBody(422, "unprocessable")))
    else if code == 400 then Some(Response(400, ErrorBody(400, "Bad request")))
    else if code == 401 then Some(Response(401, ErrorBody(401, "Unauthorized")))
    else if code == 403 then Some(Response(403, ErrorBody(403, "Forbidden")))
    else if code == 404 then Some(Response(404, ErrorBody(404, "Not found")))
    else if code == 405 then Some(Response(405, ErrorBody(405, "Method not allowed")))
    else None
  }

  /** The codes the 500 handler passes on to another handler. */
  const Redispatched: set<int> := {400, 401, 403, 404, 405}

  /** The 500 handler, given the `status_code` attribute of the error if it has one: a code
      in `Redispatched` goes to that code's handler, anything else gets the 500 body. */
  function InternalServerError(statusCode: Option<int>): (r: Response)
    ensures statusCode.Some? && statusCode.value in Redispatched ==>
      ErrorHandler(statusCode.value) == Some(r)
    ensures !(statusCode.Some? && statusCode.value in Redispatched) ==>
      r == Response(500, ErrorBody(500, "Internal server error"))
  {
    var code := if statusCode.Some? then statusCode.value else 999;
    if code in Redispatched then ErrorHandler(code).value
    else Response(500, ErrorBody(500, "Internal server error"))
  }

  /** A 422 reaching the 500 handler is not passed on: 422 is not in the dispatch table. */
  lemma UnprocessableNotRedispatched()
    ensures InternalServerError(Some(422)).status == 500
    ensures ErrorHandler(422).value.status == 422
  {
  }

  /** `abort(code)`: the response of the handler registered for `code`. The exception it
      raises for 500 has no `status_code`. */
  function Abort(code: int): (r: Response)
    requires code in {400, 401, 403, 404, 405, 500}
    ensures r.status == code && r.body.ErrorBody? && r.body.error == code
  {
    if code == 500 then InternalServerError(None) else ErrorHandler(code).value
  }

  /** The `except` clauses of the PATCH/DELETE route: an AuthError is aborted with its own
      status, NotFound with 404, every other exception with 500. */
  function Catch(e: Exception): (r: Response)
    ensures e.AuthFailure? ==> r.status == e.authError.statusCode
    ensures e.NotFoundError? ==> r.status == 404
    ensures !e.AuthFailure? && !e.NotFoundError? ==> r.status == 500
    ensures !r.body.Success() && r.body.error == r.status
  {
    match e
    case AuthFailure(a) => Abort(a.statusCode)
    case NotFoundError => Abort(404)
    case _ => Abort(500)
  }

  // ----------------------------------------------------------------------------------------
  // GET /drinks and GET /drinks-detail

  /** The short views of the drinks, in order; `None` when some recipe is "null". */
  function ShortAll(stored: seq<Drink>): (r: Option<seq<ShortView>>)
    ensures r.Some? <==> forall i :: 0 <= i < |stored| ==> stored[i].recipe.Some?
    ensures r.Some? ==>
      |r.value| == |stored| && forall i :: 0 <= i < |stored| ==> Short(stored[i]) == Some(r.value[i])
    decreases |stored|
  {
    if |stored| == 0 then Some([])
    else
      match (Short(stored[0]), ShortAll(stored[1..]))
      case (Some(v), Some(vs)) => Some([v] + vs)
      case _ => None
  }

  /** GET /drinks, given the drinks a full-table query returns (`db.All()` of the table, as
      `PostThenList` passes it): no authorization; the short view of each drink, in that
      order. A "null" recipe makes the view raise. */
  function GetDrinks(stored: seq<Drink>): (r: ViewResult)
    ensures r.Responded? <==> forall i :: 0 <= i < |stored| ==> stored[i].recipe.Some?
    ensures r.Escaped? ==> r.exception == RecipeNotIterable
    ensures r.Responded? ==>
      && r.response.status == 200
      && r.response.body.ShortDrinks?
      && |r.response.body.shortDrinks| == |stored|
      && forall i :: 0 <= i < |stored| ==> Short(stored[i]) == Some(r.response.body.shortDrinks[i])
  {
    match ShortAll(stored)
    case None => Escaped(RecipeNotIterable)
    case Some(drinks) => Responded(Response(200, ShortDrinks(drinks)))
  }

  const DetailPermission := "get:drinks-detail"
  const PostPermission := "post:drinks"
  const PatchPermission := "patch:drinks"
  const DeletePermission := "delete:drinks"

  /** GET /drinks-detail, given the drinks a full-table query returns (`db.All()` of the
      table): behind `get:drinks-detail`; the long view of each drink in that order. A
      refusal of the guard leaves the view as an exception. */
  function GetDrinksDetail(stored: seq<Drink>, authorization: Option<string>, issuer: Issuer): (r: ViewResult)
    ensures r.Responded? <==> RequiresAuth(DetailPermission, authorization, issuer).Pass?
    ensures r.Escaped? ==>
      r.exception == FromRaised(RequiresAuth(DetailPermission, authorization, issuer).error)
    ensures r.Responded? ==>
      && r.response.status == 200
      && r.response.body.LongDrinks?
      && |r.response.body.longDrinks| == |stored|
      && forall i :: 0 <= i < |stored| ==> r.response.body.longDrinks[i] == Long(stored[i])
  {
    match RequiresAuth(DetailPermission, authorization, issuer)
    case Fail(raised) => Escaped(FromRaised(raised))
    case Pass => Responded(Response(200, LongDrinks(seq(|stored|, i requires 0 <= i < |stored| => Long(stored[i])))))
  }

  // ----------------------------------------------------------------------------------------
  // POST /drinks

  /** POST /drinks: behind `post:drinks`; stores a drink with the body's title and recipe
      and answers with that drink's long view as a one-element list. A refusal of the guard
      and a title already in use leave the view as exceptions. */
  method PostDrinks(db: DrinkTable, request: Request, issuer: Issuer) returns (r: ViewResult)
    requires db.Valid()
    modifies db
    ensures db.Valid()
    ensures var guard := RequiresAuth(PostPermission, request.authorization, issuer);
      guard.Fail? ==> r == Escaped(FromRaised(guard.error)) && unchanged(db)
    ensures (RequiresAuth(PostPermission, request.authorization, issuer).Pass? &&
             TitleTaken(old(db.rows), request.json.title)) ==>
        r == Escaped(IntegrityFailure) && db.rows == old(db.rows) && db.ids == old(db.ids)
    ensures (RequiresAuth(PostPermission, request.authorization, issuer).Pass? &&
             !TitleTaken(old(db.rows), request.json.title)) ==>
        var created := Drink(NextId(old(db.ids)), request.json.title, request.json.recipe);
        && created.id !in old(db.rows)
        && db.All() == old(db.All()) + [created]
        && r == Responded(Response(200, LongDrinks([Long(created)])))
  {
    var guard := RequiresAuth(PostPermission, request.authorization, issuer);
    if guard.Fail? {
      return Escaped(FromRaised(guard.error));
    }
    var inserted := db.Insert(request.json.title, request.json.recipe);
    if inserted.Err? {
      return Escaped(IntegrityFailure);
    }
    r := Responded(Response(200, LongDrinks([Long(inserted.value)])));
  }

  // ----------------------------------------------------------------------------------------
  // PATCH and DELETE /drinks/<id>

  /** A drink after a PATCH body: the title only when the body gives one, the recipe always. */
  function Patched(d: Drink, payload: DrinkPayload): (r: Drink)
    ensures r.id == d.id && r.recipe == payload.recipe
    ensures payload.title.Some? ==> r.title == payload.title
    ensures payload.title.None? ==> r.title == d.title
  {
    Drink(d.id, if payload.title.Some? then payload.title else d.title, payload.recipe)
  }

  /** The guarded inner `delete` view. */
  method DeleteDrink(db: DrinkTable, drinkId: int, request: Request, issuer: Issuer) returns (r: Result<Response, Exception>)
    requires db.Valid()
    modifies db
    ensures db.Valid()
    ensures var guard := RequiresAuth(DeletePermission, request.authorization, issuer);
      && (guard.Fail? ==> r == Err(FromRaised(guard.error)) && unchanged(db))
      && (guard.Pass? && drinkId !in old(db.rows) ==> r == Err(NotFoundError) && unchanged(db))
      && (guard.Pass? && drinkId in old(db.rows) ==>
            r == Ok(Response(200, DeletedId(drinkId))) && db.rows == old(db.rows) - {drinkId})
  {
    var guard := RequiresAuth(DeletePermission, request.authorization, issuer);
    if guard.Fail? {
      return Err(FromRaised(guard.error));
    }
    var drink := db.Get(drinkId);
    if drink.None? {
      return Err(NotFoundError);
    }
    db.Delete(drinkId);
    r := Ok(Response(200, DeletedId(drinkId)));
  }

  /** The guarded inner `patch` view, given the drink looked up before the guard ran. */
  method PatchDrink(db: DrinkTable, drink: Option<Drink>, request: Request, issuer: Issuer) returns (r: Result<Response, Exception>)
    requires db.Valid()
    requires drink.Some? ==> drink.value.id in db.rows && db.rows[drink.value.id] == drink.value
    modifies db
    ensures db.Valid()
    ensures var guard := RequiresAuth(PatchPermission, request.authorization, issuer);
      && (guard.Fail? ==> r == Err(FromRaised(guard.error)) && unchanged(db))
      && (guard.Pass? && drink.None? ==> r == Err(NotFoundError) && unchanged(db))
      && (guard.Pass? && drink.Some? ==>
            var p := Patched(drink.value, request.json);
            if TitleTaken(old(db.rows) - {p.id}, p.title) then
              r == Err(IntegrityFailure) && db.rows == old(db.rows) && db.ids == old(db.ids)
            else
              r == Ok(Response(200, OneDrink(Long(p)))) && db.rows == old(db.rows)[p.id := p] &&
              db.ids == old(db.ids))
  {
    var guard := RequiresAuth(PatchPermission, request.authorization, issuer);
    if guard.Fail? {
      return Err(FromRaised(guard.error));
    }
    if drink.None? {
      return Err(NotFoundError);
    }
    var p := Patched(drink.value, request.json);
    var committed := db.Update(p);
    if committed.Fail? {
      return Err(IntegrityFailure);
    }
    r := Ok(Response(200, OneDrink(Long(p))));
  }

  /** The PATCH/DELETE route on `/drinks/<id>`: looks the drink up, runs the guarded inner
      view for the verb, and turns what it raises into an error response. */
  method DeleteOrPatchDrink(db: DrinkTable, verb: Verb, drinkId: nat, request: Request, issuer: Issuer) returns (response: Response)
    requires db.Valid()
    modifies db
    ensures db.Valid()
    ensures var guard := RequiresAuth(if verb == DELETE then DeletePermission else PatchPermission, request.authorization, issuer);
      && (guard.Fail? ==> response == Catch(FromRaised(guard.error)) && unchanged(db))
      && (guard.Pass? && drinkId !in old(db.rows) ==> response == Abort(404) && unchanged(db))
      && (guard.Pass? && drinkId in old(db.rows) && verb == DELETE ==>
            response == Response(200, DeletedId(drinkId)) && db.rows == old(db.rows) - {drinkId})
      && (guard.Pass? && drinkId in old(db.rows) && verb == PATCH ==>
            var p := Patched(old(db.rows)[drinkId], request.json);
            if TitleTaken(old(db.rows) - {drinkId}, p.title) then
              response == Abort(500) && db.rows == old(db.rows) && db.ids == old(db.ids)
            else
              response == Response(200, OneDrink(Long(p))) && db.rows == old(db.rows)[drinkId := p] &&
              db.ids == old(db.ids))
  {
    var drink := db.Get(drinkId);
    var outcome;
    if verb == DELETE {
      outcome := DeleteDrink(db, drinkId, request, issuer);
    } else {
      outcome := PatchDrink(db, drink, request, issuer);
    }
    match outcome
    case Ok(resp) => response := resp;
    case Err(e) => response := Catch(e);
  }

  // ----------------------------------------------------------------------------------------
  // Request sequences

  /** Deleting a drink twice with the same authorized request: the first call removes it and
      answers with its id, the second answers 404. */
  method DeleteTwice(db: DrinkTable, drinkId: nat, request: Request, issuer: Issuer) returns (first: Response, second: Response)
    requires db.Valid() && drinkId in db.rows
    requires RequiresAuth(DeletePermission, request.authorization, issuer).Pass?
    modifies db
    ensures first == Response(200, DeletedId(drinkId))
    ensures second == Response(404, ErrorBody(404, "Not found"))
    ensures drinkId !in db.rows
  {
    first := DeleteOrPatchDrink(db, DELETE, drinkId, request, issuer);
    second := DeleteOrPatchDrink(db, DELETE, drinkId, request, issuer);
  }

  /** A drink created by POST is listed last, unchanged, by GET /drinks-detail and, in short
      form, by GET /drinks. */
  method PostThenList(db: DrinkTable, post: Request, detailAuthorization: Option<string>, issuer: Issuer)
    returns (created: ViewResult, detail: ViewResult, listing: ViewResult)
    requires db.Valid()
    requires RequiresAuth(PostPermission, post.authorization, issuer).Pass?
    requires RequiresAuth(DetailPermission, detailAuthorization, issuer).Pass?
    requires !TitleTaken(db.rows, post.json.title)
    requires post.json.recipe.Some?
    requires forall k :: k in db.rows ==> db.rows[k].recipe.Some?
    modifies db
    ensures created.Responded? && created.response.body.LongDrinks? && |created.response.body.longDrinks| == 1
    ensures var long := created.response.body.longDrinks[0];
      && long.title == post.json.title && long.recipe == post.json.recipe
      && detail.Responded? && detail.response.body.LongDrinks?
      && |detail.response.body.longDrinks| > 0
      && detail.response.body.longDrinks[|detail.response.body.longDrinks| - 1] == long
      && listing.Responded? && listing.response.body.ShortDrinks?
      && |listing.response.body.shortDrinks| > 0
      && listing.response.body.shortDrinks[|listing.response.body.shortDrinks| - 1] ==
           ShortView(long.id, long.title, ShortRecipe(post.json.recipe.value))
  {
    created := PostDrinks(db, post, issuer);
    detail := GetDrinksDetail(db.All(), detailAuthorization, issuer);
    forall i | 0 <= i < |db.All()|
      ensures db.All()[i].recipe.Some?
    {
      assert db.All()[i] == db.rows[db.ids[i]];
    }
    listing := GetDrinks(db.All());
  }
}
