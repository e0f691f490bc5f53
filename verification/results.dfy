/** Outcomes of the calls this program makes against the Kubernetes API
    server, and of the program itself.  Every client-go call is an opaque
    input: the model never computes what the server answers, it only
    consumes the answer.  Every error the program meets ends in `log.Fatal`
    or a Go runtime panic; both become a `Fatal` outcome naming the cause. */
module Results {

  datatype Option<+T> = None | Some(value: T)

  /** The error value a client-go call returns; its contents are opaque. */
  datatype ApiError = ApiError(message: string)

  /** The answer to one client-go call: the decoded object, or the error. */
  datatype ApiResult<+T> = Ok(value: T) | Err(error: ApiError)

  /** Why the program stopped. */
  datatype Failure =
    | ListNamespacesFailed(error: ApiError)        // Namespaces().List failed
    | ListFailed(namespace: string, error: ApiError) // per-namespace List failed
    | GetFailed(error: ApiError)                    // Deployments().Get failed
    | UpdateFailed(error: ApiError)                 // Deployments().Update failed
    | CreateFailed(error: ApiError)                 // Create of a deployment or service failed
    | NilReplicas                                   // dereference of a nil Spec.Replicas
    | NoContainer                                   // Containers[0] on an empty slice

  /** What a step of the program ends in: a value, or process exit. */
  datatype Outcome<+T> = Done(value: T) | Fatal(failure: Failure)
}
