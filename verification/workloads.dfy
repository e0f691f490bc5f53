/** The two read-modify-write operations on a Deployment: EditDeployment
    (replica toggle) and EditImage (image of the first container).  Each
    fetches the object, edits the fetched copy and submits it with Update;
    the Get and Update answers are inputs. */
module Workloads {
  import opened Results
  import opened Resources
  import Scaling

  /** The image EditImage writes into the first container. */
  const NewImage: string := "nginx:1.18.0"

  /** What one read-modify-write does: the object it submits to Update, if
      it gets that far, and how the program ends. */
  datatype ReadModifyWrite = ReadModifyWrite(submitted: Option<Deployment>, outcome: Outcome<Deployment>)

  /** The Update answer as EditImage reports it: the returned object's name. */
  function UpdateOutcome(updated: ApiResult<Deployment>): Outcome<Deployment> {
    match updated
    case Ok(d) => Done(d)
    case Err(e) => Fatal(UpdateFailed(e))
  }

  /** The Update answer as EditDeployment reports it: the success message
      dereferences the returned object's replica pointer, so a nil pointer
      there is a panic. */
  function ScaledUpdateOutcome(updated: ApiResult<Deployment>): Outcome<Deployment> {
    match updated
    case Err(e) => Fatal(UpdateFailed(e))
    case Ok(d) => if d.replicas.None? then Fatal(NilReplicas) else Done(d)
  }

  /** The common shape: fail fast on Get, edit only the fetched object,
      submit only what the edit produced, then report the Update answer. */
  function Rmw(fetched: ApiResult<Deployment>, edit: Deployment -> Outcome<Deployment>,
               updated: ApiResult<Deployment>, report: ApiResult<Deployment> -> Outcome<Deployment>): ReadModifyWrite
  {
    match fetched
    case Err(e) => ReadModifyWrite(None, Fatal(GetFailed(e)))
    case Ok(current) =>
      match edit(current)
      case Fatal(f) => ReadModifyWrite(None, Fatal(f))
      case Done(next) => ReadModifyWrite(Some(next), report(updated))
  }

  /** `after` is `before` with the replica rule applied and nothing else. */
  predicate Rescaled(before: Deployment, after: Deployment) {
    && before.replicas.Some?
    && after.replicas == Some(Scaling.Step(before.replicas.value))
    && after.(replicas := before.replicas) == before
  }

  /** The edit of EditDeployment; a nil replica pointer is a panic. */
  function ScaleReplicas(d: Deployment): (r: Outcome<Deployment>)
    ensures r.Done? <==> d.replicas.Some?
    ensures r.Fatal? ==> r.failure == NilReplicas
    ensures r.Done? ==> Rescaled(d, r.value)
  {
    match d.replicas
    case None => Fatal(NilReplicas)
    case Some(n) => Done(d.(replicas := Some(Scaling.Step(n))))
  }

  /** EditDeployment: nothing is submitted unless Get succeeded; what is
      submitted is the fetched object with the replica rule applied; the run
      ends with the Update answer, or with a panic when that answer has no
      replica count to print. */
  function EditDeployment(fetched: ApiResult<Deployment>, updated: ApiResult<Deployment>): (run: ReadModifyWrite)
    ensures fetched.Err? ==> run.submitted.None? && run.outcome == Fatal(GetFailed(fetched.error))
    ensures run.submitted.Some? <==> fetched.Ok? && fetched.value.replicas.Some?
    ensures fetched.Ok? && fetched.value.replicas.None? ==> run.outcome == Fatal(NilReplicas)
    ensures run.submitted.Some? ==> Rescaled(fetched.value, run.submitted.value)
    ensures run.submitted.Some? && updated.Err? ==> run.outcome == Fatal(UpdateFailed(updated.error))
    ensures run.submitted.Some? && updated.Ok? ==> (run.outcome.Done? <==> updated.value.replicas.Some?)
    ensures run.submitted.Some? && updated.Ok? && updated.value.replicas.Some? ==> run.outcome == Done(updated.value)
    ensures run.submitted.Some? && updated.Ok? && updated.value.replicas.None? ==> run.outcome == Fatal(NilReplicas)
  {
    Rmw(fetched, ScaleReplicas, updated, ScaledUpdateOutcome)
  }

  /** EditDeployment run `n` times, each run fetching what the previous one
      submitted. */
  function ScaleTimes(d: Deployment, n: nat): Outcome<Deployment>
    decreases n
  {
    if n == 0 then Done(d)
    else match ScaleReplicas(d)
      case Fatal(f) => Fatal(f)
      case Done(next) => ScaleTimes(next, n - 1)
  }

  /** Repeated runs change only the replica count, and change it exactly as
      the iterated rule says. */
  lemma {:induction false} ScaleTimesIterates(d: Deployment, n: nat)
    requires d.replicas.Some?
    ensures ScaleTimes(d, n) == Done(d.(replicas := Some(Scaling.Iterate(d.replicas.value, n))))
    decreases n
  {
    if n > 0 {
      ScaleTimesIterates(ScaleReplicas(d).value, n - 1);
    }
  }

  /** `after` is `before` with only the first container's image replaced. */
  predicate ImageReplaced(before: Deployment, after: Deployment, image: string) {
    var cs, cs' := before.template.containers, after.template.containers;
    && |cs| > 0
    && |cs'| == |cs|
    && cs'[0].image == image
    && cs'[0].(image := cs[0].image) == cs[0]
    && (forall i :: 1 <= i < |cs| ==> cs'[i] == cs[i])
    && after.template.labels == before.template.labels
    && after.(template := before.template) == before
  }

  /** The edit of EditImage; indexing an empty container slice is a panic. */
  function SetImage(d: Deployment, image: string): (r: Outcome<Deployment>)
    ensures r.Done? <==> |d.template.containers| > 0
    ensures r.Fatal? ==> r.failure == NoContainer
    ensures r.Done? ==> ImageReplaced(d, r.value, image)
  {
    var cs := d.template.containers;
    if |cs| == 0 then Fatal(NoContainer)
    else Done(d.(template := d.template.(containers := cs[0 := cs[0].(image := image)])))
  }

  function SetNewImage(d: Deployment): Outcome<Deployment> {
    SetImage(d, NewImage)
  }

  /** EditImage: nothing is submitted unless Get succeeded; what is submitted
      is the fetched object with container 0 running nginx:1.18.0. */
  function EditImage(fetched: ApiResult<Deployment>, updated: ApiResult<Deployment>): (run: ReadModifyWrite)
    ensures fetched.Err? ==> run.submitted.None? && run.outcome == Fatal(GetFailed(fetched.error))
    ensures run.submitted.Some? <==> fetched.Ok? && |fetched.value.template.containers| > 0
    ensures fetched.Ok? && |fetched.value.template.containers| == 0 ==> run.outcome == Fatal(NoContainer)
    ensures run.submitted.Some? ==> ImageReplaced(fetched.value, run.submitted.value, NewImage)
    ensures run.submitted.Some? ==> run.outcome == UpdateOutcome(updated)
  {
    Rmw(fetched, SetNewImage, updated, UpdateOutcome)
  }

  /** ImageReplaced leaves nothing open: it determines the edited object. */
  lemma ImageReplacedDetermines(before: Deployment, a: Deployment, b: Deployment, image: string)
    requires ImageReplaced(before, a, image) && ImageReplaced(before, b, image)
    ensures a == b
  {
  }

  /** Writing back the old image undoes the edit. */
  lemma SetImageRestores(d: Deployment, image: string)
    requires |d.template.containers| > 0
    ensures SetImage(SetImage(d, image).value, d.template.containers[0].image) == Done(d)
  {
    var e := SetImage(d, image).value;
    var back := SetImage(e, d.template.containers[0].image).value;
    ImageReplacedDetermines(d, back, d, d.template.containers[0].image);
  }

  /** Setting the same image twice is the same as setting it once. */
  lemma SetImageIdempotent(d: Deployment, image: string)
    requires |d.template.containers| > 0
    ensures SetImage(SetImage(d, image).value, image) == SetImage(d, image)
  {
    var once := SetImage(d, image).value;
    var twice := SetImage(once, image).value;
    ImageReplacedDetermines(d, twice, once, image);
  }

  /** Both edits keep a valid Deployment valid, provided its replica count
      is non-negative (the rule then yields at least one). */
  lemma EditsPreserveValidity(d: Deployment)
    requires ValidDeployment(d)
    ensures ScaleReplicas(d).Done? ==> ValidDeployment(ScaleReplicas(d).value)
    ensures ValidDeployment(SetNewImage(d).value)
  {
  }

  /** Neither edit touches the pod-template labels, so a Service that
      exposed the Deployment before still exposes it after. */
  lemma EditsPreserveExposure(svc: Service, d: Deployment)
    requires Exposes(svc, d)
    ensures ScaleReplicas(d).Done? ==> Exposes(svc, ScaleReplicas(d).value)
    ensures SetNewImage(d).Done? ==> Exposes(svc, SetNewImage(d).value)
  {
  }
}
