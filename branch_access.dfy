/** checkBranchAccess(resourceType): keeps a MANAGER to the showtimes of their
    own branch; ADMIN and every other role pass. */
module BranchAccessCheck {
  import opened Common

  /** What the middleware reads from a request: the user, the `showtime_id` route
      parameter and the `branch_id` body field. */
  datatype AccessRequest = AccessRequest(user: Option<User>, showtimeParam: Option<string>, bodyBranch: Option<string>)

  const ShowtimeNotFound := Failure(404, "Showtime not found")
  const OtherBranch := Failure(403, "Access denied. You can only manage showtimes in your own branch.")
  /** Reading `user.branch_id` with no user throws, and the catch answers this. */
  const VerificationFailed := Failure(500, "Access verification failed")

  /** The branch the request is about, for a "showtime" resource: the showtime's
      branch when the parameter is set, else the body's branch_id when set;
      `branchOf` is the `movie.Showtimes` lookup. */
  function ResourceBranch(req: AccessRequest, branchOf: map<string, string>): Option<string>
    requires Present(req.showtimeParam) ==> req.showtimeParam.value in branchOf
  {
    if Present(req.showtimeParam) then Some(branchOf[req.showtimeParam.value])
    else if Present(req.bodyBranch) then req.bodyBranch
    else None
  }

  function CheckBranchAccess(resourceType: string, req: AccessRequest, branchOf: map<string, string>): Gate
  {
    if req.user.None? then Deny(VerificationFailed)
    else if req.user.value.role == "ADMIN" then Pass
    else if req.user.value.role != "MANAGER" || resourceType != "showtime" then Pass
    else if Present(req.showtimeParam) && req.showtimeParam.value !in branchOf then Deny(ShowtimeNotFound)
    else
      var resource := ResourceBranch(req, branchOf);
      if Present(resource) && resource.value != req.user.value.branchId then Deny(OtherBranch)
      else Pass
  }

  /** ADMIN always passes, whatever the lookup holds. */
  lemma AdminAlwaysPasses(resourceType: string, req: AccessRequest, branchOf: map<string, string>)
    requires req.user.Some? && req.user.value.role == "ADMIN"
    ensures CheckBranchAccess(resourceType, req, branchOf) == Pass
  {
  }

  /** A MANAGER naming a showtime that does not exist gets 404. */
  lemma ManagerUnknownShowtime(req: AccessRequest, branchOf: map<string, string>)
    requires req.user.Some? && req.user.value.role == "MANAGER"
    requires Present(req.showtimeParam) && req.showtimeParam.value !in branchOf
    ensures CheckBranchAccess("showtime", req, branchOf) == Deny(ShowtimeNotFound)
  {
  }

  /** A MANAGER on a showtime resource is refused 403 exactly when a resource
      branch was identified and it is not their own; otherwise they pass. */
  lemma ManagerDeniedIff(req: AccessRequest, branchOf: map<string, string>)
    requires req.user.Some? && req.user.value.role == "MANAGER"
    requires Present(req.showtimeParam) ==> req.showtimeParam.value in branchOf
    ensures var resource := ResourceBranch(req, branchOf);
      && (CheckBranchAccess("showtime", req, branchOf) == Deny(OtherBranch)
          <==> Present(resource) && resource.value != req.user.value.branchId)
      && (CheckBranchAccess("showtime", req, branchOf) == Pass
          <==> !(Present(resource) && resource.value != req.user.value.branchId))
  {
  }

  /** When the route names a showtime, the body's branch_id is ignored. */
  lemma ParamTakesPrecedence(resourceType: string, req: AccessRequest, body: Option<string>, branchOf: map<string, string>)
    requires Present(req.showtimeParam)
    ensures CheckBranchAccess(resourceType, req, branchOf) == CheckBranchAccess(resourceType, req.(bodyBranch := body), branchOf)
  {
  }

  /** Every other authenticated request passes: a role other than MANAGER, or a
      resource type other than "showtime". */
  lemma OthersPass(resourceType: string, req: AccessRequest, branchOf: map<string, string>)
    requires req.user.Some?
    requires req.user.value.role != "MANAGER" || resourceType != "showtime"
    ensures CheckBranchAccess(resourceType, req, branchOf) == Pass
  {
  }

  /** The only answers are pass, 404, 403 and 500. */
  lemma CheckBranchAccessOutcomes(resourceType: string, req: AccessRequest, branchOf: map<string, string>)
    ensures CheckBranchAccess(resourceType, req, branchOf) in {Pass, Deny(ShowtimeNotFound), Deny(OtherBranch), Deny(VerificationFailed)}
    ensures CheckBranchAccess(resourceType, req, branchOf) == Deny(VerificationFailed) <==> req.user.None?
  {
  }
}
