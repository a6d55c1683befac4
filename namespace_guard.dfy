/** The default-circle namespace guard of the v2 deployments API (butler):
    a request that deploys to a default circle is admitted only when the
    circle's current default deployment, if any, lives in the same
    namespace. The deployments repository is a snapshot of its table. */
module NamespaceGuard {
  import opened Wrappers

  datatype CircleRef = CircleRef(id: string, isDefault: bool)

  /** The fields of a create-deployment request that the guard reads, with
      the rest of the request carried along unchanged. */
  datatype DeploymentRequest = DeploymentRequest(
    deploymentId: string,
    authorId: string,
    callbackUrl: string,
    namespace: string,
    circle: CircleRef)

  /** A row of the deployments table. */
  datatype StoredDeployment = StoredDeployment(
    id: string,
    circleId: string,
    defaultCircle: bool,
    current: bool,
    namespace: string)

  /** The guard's only failure: the rejection of the request (a
      `ConflictException`, "Invalid namespace", as written). */
  datatype GuardError = NamespaceConflict

  /** The criteria of the lookup: `{ defaultCircle: true, current: true, circleId }`. */
  predicate IsCurrentDefaultOf(d: StoredDeployment, circleId: string)
  {
    d.defaultCircle && d.current && d.circleId == circleId
  }

  /** `findOne`: the first row, in table order, that meets the criteria. */
  function FindCurrentDefault(deployments: seq<StoredDeployment>, circleId: string): (r: Option<StoredDeployment>)
    ensures r.None? <==> forall d :: d in deployments ==> !IsCurrentDefaultOf(d, circleId)
    ensures r.Some? ==> exists i :: 0 <= i < |deployments| && deployments[i] == r.value
                          && IsCurrentDefaultOf(r.value, circleId)
                          && forall j :: 0 <= j < i ==> !IsCurrentDefaultOf(deployments[j], circleId)
  {
    if deployments == [] then None
    else if IsCurrentDefaultOf(deployments[0], circleId) then Some(deployments[0])
    else
      var r := FindCurrentDefault(deployments[1..], circleId);
      assert forall d :: d in deployments <==> d == deployments[0] || d in deployments[1..];
      if r.Some? then
        var i :| 0 <= i < |deployments[1..]| && deployments[1..][i] == r.value
                 && IsCurrentDefaultOf(r.value, circleId)
                 && forall j :: 0 <= j < i ==> !IsCurrentDefaultOf(deployments[1..][j], circleId);
        assert deployments[i + 1] == r.value;
        assert forall j :: 0 <= j < i + 1 ==> !IsCurrentDefaultOf(deployments[j], circleId) by {
          forall j | 0 <= j < i + 1 ensures !IsCurrentDefaultOf(deployments[j], circleId) {
            if j > 0 { assert deployments[j] == deployments[1..][j - 1]; }
          }
        }
        r
      else r
  }

  /** `DefaultCircleNamespaceUniquenessPipe.transform`: the request itself
      when admitted, a conflict otherwise. */
  function Transform(deployments: seq<StoredDeployment>, request: DeploymentRequest): (r: Result<DeploymentRequest, GuardError>)
    ensures r.Success? ==> r.value == request
    ensures r.Failure? <==>
              && request.circle.isDefault
              && exists d :: d in deployments && IsCurrentDefaultOf(d, request.circle.id) && d.namespace != request.namespace
                             && d == FindCurrentDefault(deployments, request.circle.id).value
  {
    if !request.circle.isDefault then Success(request)
    else
      var found := FindCurrentDefault(deployments, request.circle.id);
      if found.Some? && found.value.namespace != request.namespace then Failure(NamespaceConflict)
      else Success(request)
  }

  /** A request for a circle that is not default is admitted whatever the
      deployments table holds: the guard does not consult it. */
  lemma NonDefaultCircleIsNotLookedUp(
    deployments: seq<StoredDeployment>, other: seq<StoredDeployment>, request: DeploymentRequest)
    requires !request.circle.isDefault
    ensures Transform(deployments, request) == Transform(other, request) == Success(request)
  {
  }

  /** With no current default deployment for the circle the request is
      admitted, whatever its namespace. */
  lemma NoCurrentDefaultAdmits(deployments: seq<StoredDeployment>, request: DeploymentRequest)
    requires forall d :: d in deployments ==> !IsCurrentDefaultOf(d, request.circle.id)
    ensures Transform(deployments, request) == Success(request)
  {
  }

  /** When every current default deployment of the circle lives in namespace
      `ns` and there is one, a default-circle request in `ns` is admitted and
      a default-circle request in any other namespace is rejected. */
  lemma {:induction false} GuardAdmitsOnlyTheExistingNamespace(
    deployments: seq<StoredDeployment>, request: DeploymentRequest, ns: string)
    requires request.circle.isDefault
    requires exists d :: d in deployments && IsCurrentDefaultOf(d, request.circle.id)
    requires forall d :: d in deployments && IsCurrentDefaultOf(d, request.circle.id) ==> d.namespace == ns
    ensures Transform(deployments, request).Success? <==> request.namespace == ns
  {
    var found := FindCurrentDefault(deployments, request.circle.id);
    assert found.Some?;
    var i :| 0 <= i < |deployments| && deployments[i] == found.value && IsCurrentDefaultOf(found.value, request.circle.id)
             && forall j :: 0 <= j < i ==> !IsCurrentDefaultOf(deployments[j], request.circle.id);
    assert found.value in deployments;
  }
}
