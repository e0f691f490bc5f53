# client-go usage demo, modelled in Dafny

The program is a small Kubernetes client written against client-go. It
defines one function per operation:
- list the namespaces;
- print the deployments of every namespace;
- print the services of every namespace;
- create a fixed Deployment (`test-golang` in `web`);
- create a fixed NodePort Service (`go-nginx-svc`);
- delete a deployment;
- edit the deployment by read-modify-write in two ways: toggle its replica
  count, or replace the image of its first container.

Its entry point calls only the service creation. The model covers each
operation on its own.

In the model every client-go call is an opaque input: an `ApiResult<T>`,
either `Ok(value)` or `Err(error)`. The model never computes what the API
server answers. `log.Fatal` and Go runtime panics become a `Fatal(Failure)`
outcome, and `Failure` names the cause. Printed output becomes a sequence of
records instead of formatted text.

Modules:
- `Results` (results.dfy): `Option`, `ApiResult`, `Failure` and `Outcome`.
- `Resources` (resources.dfy): the Deployment, Service and Namespace fields
  that the program sets or prints, and the `Selects`, `ValidDeployment` and
  `Exposes` predicates. `Int32` is Go's `int32`. The replica count is
  `Option<Int32>` because the Go field is a `*int32` pointer that may be nil.
- `Scaling` (scaling.dfy): the replica rule and its iterates.
- `Workloads` (workloads.dfy): EditDeployment and EditImage.
- `Listing` (listing.dfy): GetNamespace and the fail-fast loop over
  namespaces.
- `Reports` (reports.dfy): GetDeployment and GetSvc, plus a parser that reads
  the service records back.
- `Demo` (demo.dfy): the CreateDeployment and CreateSvc literals, and a
  hypothetical sequence of calls on the created deployment.

Behaviour of the code that the model keeps:
- The all-namespace listing is not all-or-nothing. When one namespace's list
  fails, the lines of the earlier namespaces have already been printed, and
  then the program exits. `Report` keeps those lines along with the failure.
- The image edit always targets `Containers[0]`. An empty container slice
  makes Go panic, which the model records as `Fatal(NoContainer)`.
- Each namespace gets one List call, with no pagination.
- GetDeployment prints the deployment object's own `Namespace` field. It does
  not print the namespace the loop is listing.
- EditDeployment's success message dereferences the replica pointer of the
  object that Update returns. A nil pointer there is a panic, just like a nil
  pointer in the fetched object.

## Model

| member | source | states |
|---|---|---|
| Scaling.Step | main.go:140-144 | each run moves the replica count by exactly one and never leaves it unchanged; it moves down if and only if the count is above 2; from a non-negative count the result is at least 1; int32 never overflows |
| Scaling.Iterate | main.go:140-144 | after any number of runs the count stays between min(start, 2) and max(start, 3): it never grows without bound and stays inside int32 |
| Scaling.IterateSplit | main.go:140-144 | running a + b times is the same as running a times and then b more times |
| Scaling.Approach | main.go:140-144 | until it first reaches 2, the count moves straight towards 2, one step per run |
| Scaling.Oscillate | main.go:140-144 | from 2, the count alternates 2, 3, 2, 3 |
| Scaling.Settles | main.go:140-144 | every start reaches 2 after exactly abs(start - 2) runs and alternates between 2 and 3 after that |
| Scaling.NeverZero | main.go:140-144 | from a non-negative start, no run leaves the deployment with zero replicas |
| Scaling.TwoCycle | main.go:140-144 | the rule has no fixed point, and {2, 3} is its only two-step cycle |
| Workloads.ScaleReplicas | main.go:140-144 | the edit succeeds if and only if the replica pointer is set (a nil pointer panics); the result differs from the input only in the replica count, which becomes the rule applied to the old count |
| Workloads.EditDeployment | main.go:133-153 | a failed Get submits nothing and exits with that error; an object is submitted if and only if Get succeeded and replicas is set; the submitted object is the fetched one rescaled; a failed Update exits with that error; a successful Update ends the run with the returned object if its replica pointer is set, and with a nil-dereference panic otherwise |
| Workloads.ScaleTimesIterates | main.go:133-153 | n successive runs, each fetching the previous submission, change only the replica count, and change it to the n-th iterate of the rule |
| Workloads.SetImage | main.go:163 | the edit succeeds if and only if there is a container (indexing an empty slice panics); only container 0's image changes; its name, pull policy and ports, every other container, the labels, the selector and the replica count are unchanged |
| Workloads.EditImage | main.go:156-172 | a failed Get submits nothing; an object is submitted if and only if Get succeeded and it has a container; the submitted object is the fetched one with container 0 running nginx:1.18.0; the run ends with the Update answer |
| Workloads.ImageReplacedDetermines | main.go:163 | the frame condition of the image edit determines the edited object uniquely |
| Workloads.SetImageRestores | main.go:163 | writing the old image back undoes the edit |
| Workloads.SetImageIdempotent | main.go:163 | setting the same image twice gives the same object as setting it once |
| Workloads.EditsPreserveValidity | main.go:140-163 | both edits keep a valid deployment valid: replicas non-negative, at least one container, distinct container names, a non-empty selector that picks the template labels |
| Workloads.EditsPreserveExposure | main.go:140-163 | neither edit touches the pod-template labels, so a service that selected the pods before still selects them after |
| Listing.GetNamespace | main.go:31-44 | a failed list exits with that error; otherwise the result has the same length and order as the listed items, and element i is item i's name |
| Listing.FirstFailed | main.go:48-53 | returns the index of the first namespace whose list fails, or the number of namespaces if none fails; every earlier list succeeded |
| Listing.FirstFailedAt | main.go:48-53 | any index whose earlier lists all succeed and whose own list fails (or which is the end) is the first failure |
| Listing.Gather | main.go:48-58 | the nested loop prints, in namespace order and list order, exactly the lines of the namespaces before the first failing list; it then stops with that namespace's error, or ends with no failure |
| Listing.ListAllNamespaces | main.go:47-59 | a failed namespace list prints nothing and exits; otherwise the loop runs over the namespace names in the order they were listed |
| Listing.EmitAllAppend | main.go:54-56 | the lines for two lists of objects, one after the other, are the lines for the first list followed by the lines for the second |
| Listing.EmitAllCons | main.go:54-56 | the lines for a non-empty list are the first object's lines followed by the lines of the rest |
| Listing.EmitAllMembers | main.go:54-56 | a line is printed if and only if some listed object produces it |
| Listing.FlattenIsEmitListed | main.go:48-58 | the per-namespace output equals the output for all listed objects concatenated in namespace order |
| Listing.ListedMembers | main.go:48-58 | an object is among the listed objects if and only if the list of some namespace returned it |
| Reports.GetDeployment | main.go:47-59 | GetDeployment stops before printing if listing namespaces fails; otherwise it prints the deployment lines of each namespace before the first failing one and stops there |
| Reports.GetSvc | main.go:175-193 | GetSvc has the same fail-fast shape and prints one block of records per service |
| Reports.DeploymentLinesInOrder | main.go:54-56 | exactly one line is printed per listed deployment, in list order, carrying that deployment's namespace and name |
| Reports.SingleLines | main.go:54-56 | for one namespace's deployments, line i carries deployment i's namespace and name |
| Reports.DeploymentLineMembers | main.go:48-58 | a (namespace, name) line is printed if and only if some namespace's list returned a deployment with that namespace and name |
| Reports.LeadingPorts | main.go:187-189 | counts the port records at the front; the record after them, if any, is a header |
| Reports.LeadingPortsOf | main.go:183-189 | a service's port records, followed by the next header, form a run of exactly its port count |
| Reports.ParseBlock | main.go:184-189 | a header, then its port records, then either the end or another header: reading back groups exactly those ports under that header |
| Reports.ServiceLinesStartWithHeader | main.go:183-185 | the printed service records, when there are any, begin with a header |
| Reports.ParseServiceLines | main.go:183-189 | the service records read back, service by service, as each service's header followed by exactly its own ports |
| Reports.ServiceReportParses | main.go:175-193 | whatever GetSvc printed before a failure or the end reads back as the blocks of the services listed so far, in namespace order |
| Demo.CreateDeployment | main.go:67-119 | submits a valid deployment into its own namespace: 2 replicas, selector equal to the template labels, one container `test` with image nginx:1.16.1, pull policy IfNotPresent and port 80/TCP `http`; the run exits with CreateFailed if and only if Create fails |
| Demo.CreateSvc | main.go:196-224 | submits a NodePort service in the deployment's namespace whose selector equals the deployment's template labels, so it exposes the pods, with port 80/TCP and node port 6110; the run exits with CreateFailed if and only if Create fails |
| Demo.DemoScenario | main.go:67-172 | in a hypothetical sequence where each Get returns the last submitted object (the entry point makes none of these calls): from the created deployment, EditDeployment submits 3 replicas; EditImage then submits nginx:1.18.0 with replicas still 3; the object stays valid and the service still exposes it |
| Demo.DemoToggles | main.go:82-144 | in hypothetical repeated EditDeployment runs on the created deployment, each fetching the previous submission, only the replica count changes; it is 2 after an even number of runs and 3 after an odd number |

## Left out

- `k8sConfig` (main.go:16-28) is not modelled. It loads a kubeconfig from a file and builds a clientset, which is file and credential I/O inside client-go.
- The `List`, `Get`, `Update` and `Create` calls are opaque inputs. Server behaviour is not modelled: already-exists, not-found and resource-version conflicts are only seen as an `Err`.
- Server-side validation is not modelled, for example whether node port 6110 is allowed (it is outside the default 30000-32767 range). Only the API server decides that.
- `DelDeployment` (main.go:122-130) is not modelled. It is one Delete call with fixed arguments and no logic.
- `Int32ptr` and `main` are not modelled because they are trivial.
- The `fmt` text is not modelled. Output is a sequence of records, and the success messages after Create and Update are dropped.
- Fields of the Kubernetes objects that the program neither sets nor prints are not modelled. This includes the other metadata and selector `matchExpressions`.
- The deployment `Status` is not modelled, although CreateDeployment prints it on success (main.go:116). Only the returned object's modelled fields are kept.
- Each namespace's List answer is a function of the namespace's name. If a name appeared twice, both entries would get the same answer, although the code makes a separate call for each. Namespace names are unique within a cluster, and no lemma depends on this.
- Concurrent changes between the Get and the Update of a read-modify-write are not modelled. The program is single-threaded and takes no lock.
- The Get and Update targets (`web` / `test-golang`) are not recorded. The model only sees the answers to those calls.
