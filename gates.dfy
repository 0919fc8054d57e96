/**
 * The ownership-or-admin gate (middleware/activityOwner.go). It reads the caller's id
 * from the request context, the place from the place table and, for a non-owner, the
 * caller's own user record; it never writes to either table.
 */
module ActivityOwnerGate {
  import opened Base
  import opened Http
  import opened Models

  /** The caller owns `place`, or the caller's stored record is an admin. */
  predicate MayMutate(place: Place, callerId: nat, users: map<nat, User>)
  {
    place.userId == callerId || (callerId in users && users[callerId].isAdmin)
  }

  /**
   * `ActivityOwner`: `activityId` is the `id` path parameter and `readsFail` says that the
   * database refuses queries. The caller id is read back with a `uint` type assertion,
   * which panics on a value of any other type.
   */
  function ActivityOwner(ctx: Context, activityId: string, places: map<nat, Place>, users: map<nat, User>,
                         readsFail: bool): (r: Step)
    ensures r.Next? ==> r == Next(ctx, [])
    ensures !r.Fatal?
    ensures "userID" !in ctx <==> r == Abort(401, "User not authenticated")
    ensures var id := ParseId(activityId);
      r.Next? <==>
        && "userID" in ctx && ctx["userID"].UintId?
        && !readsFail && IsStoredKey(places, id)
        && MayMutate(places[id.value as nat], ctx["userID"].n, users)
    ensures "userID" in ctx && !readsFail && ParseId(activityId).Some? && !IsStoredKey(places, ParseId(activityId)) ==>
      r == Abort(404, "Activity not found")
    ensures "userID" in ctx && (readsFail || ParseId(activityId).None?) ==>
      r == Abort(500, "Error retrieving activity")
    ensures r.Panic? <==>
      "userID" in ctx && !ctx["userID"].UintId? && !readsFail && IsStoredKey(places, ParseId(activityId))
    // a non-owner: let through if its stored record is an admin, 403 if it is not, 500 if there is none
    ensures var id := ParseId(activityId);
      "userID" in ctx && ctx["userID"].UintId? && !readsFail && IsStoredKey(places, id) &&
      places[id.value as nat].userId != ctx["userID"].n ==>
        && (ctx["userID"].n in users && !users[ctx["userID"].n].isAdmin ==>
              r == Abort(403, "You are not authorized to perform this action"))
        && (ctx["userID"].n !in users ==> r == Abort(500, "Error checking user permissions"))
    ensures r.Abort? && r.status == 403 ==>
      && "userID" in ctx && ctx["userID"].UintId?
      && ctx["userID"].n in users && !users[ctx["userID"].n].isAdmin
  {
    if "userID" !in ctx then Abort(401, "User not authenticated")
    else
      match FindByText(places, activityId, readsFail)
      case NotFound => Abort(404, "Activity not found")
      case Failed => Abort(500, "Error retrieving activity")
      case Found(place) =>
        match ctx["userID"]
        case UintId(callerId) =>
          if place.userId != callerId then
            match FindById(users, callerId, readsFail)
            case Found(user) =>
              if !user.isAdmin then Abort(403, "You are not authorized to perform this action")
              else Next(ctx, [])
            case _ => Abort(500, "Error checking user permissions")
          else Next(ctx, [])
        case _ => Panic("interface conversion: userID is not uint")
  }

  /** The owner is let through whatever the user table holds: no user lookup is made. */
  lemma OwnerNeedsNoUserLookup(ctx: Context, activityId: string, places: map<nat, Place>,
                               users1: map<nat, User>, users2: map<nat, User>)
    requires "userID" in ctx && ctx["userID"].UintId?
    requires IsStoredKey(places, ParseId(activityId))
    requires places[ParseId(activityId).value as nat].userId == ctx["userID"].n
    ensures ActivityOwner(ctx, activityId, places, users1, false) == Next(ctx, [])
    ensures ActivityOwner(ctx, activityId, places, users1, false) == ActivityOwner(ctx, activityId, places, users2, false)
  {
  }

  /**
   * The admin right that lets a non-owner through comes from the stored user record,
   * never from the token: the context's "isAdmin" entry has no effect.
   */
  lemma AdminRightComesFromStore(ctx: Context, activityId: string, places: map<nat, Place>, users: map<nat, User>,
                                 readsFail: bool, claimed: CtxValue)
    requires "userID" in ctx
    ensures ActivityOwner(ctx["isAdmin" := claimed], activityId, places, users, readsFail).Next? ==
            ActivityOwner(ctx, activityId, places, users, readsFail).Next?
    ensures !ActivityOwner(ctx, activityId, places, users, readsFail).Next? ==>
            ActivityOwner(ctx["isAdmin" := claimed], activityId, places, users, readsFail) ==
            ActivityOwner(ctx, activityId, places, users, readsFail)
  {
    var ctx' := ctx["isAdmin" := claimed];
    assert "userID" in ctx' && ctx'["userID"] == ctx["userID"];
  }
}

module AdminGate {
  import opened Http

  /** `RequireAdmin`. */
  function RequireAdmin(ctx: Context): (r: Step)
    ensures r.Next? <==> "isAdmin" in ctx && ctx["isAdmin"] == Flag(true)
    ensures r.Next? ==> r == Next(ctx, [])
    ensures "isAdmin" !in ctx <==> r == Abort(401, "Authentication required")
    ensures "isAdmin" in ctx && ctx["isAdmin"] != Flag(true) <==> r == Abort(403, "Admin access required")
    ensures !r.Fatal? && !r.Panic?
  {
    if "isAdmin" !in ctx then Abort(401, "Authentication required")
    else
      match ctx["isAdmin"]
      case Flag(isAdmin) =>
        if !isAdmin then Abort(403, "Admin access required") else Next(ctx, [])
      case _ => Abort(403, "Admin access required")
  }

  /** The decision reads the "isAdmin" entry and nothing else. */
  lemma RequireAdminReadsOnlyFlag(ctx1: Context, ctx2: Context)
    requires ("isAdmin" in ctx1) == ("isAdmin" in ctx2)
    requires "isAdmin" in ctx1 ==> ctx1["isAdmin"] == ctx2["isAdmin"]
    ensures RequireAdmin(ctx1).Next? == RequireAdmin(ctx2).Next?
    ensures !RequireAdmin(ctx1).Next? ==> RequireAdmin(ctx1) == RequireAdmin(ctx2)
  {
  }
}
