/** CreateDeployment and CreateSvc: the objects the program submits, as
    constants, and the properties that make them fit together. */
module Demo {
  import opened Results
  import opened Resources
  import Workloads
  import Scaling

  /** The namespace both objects are created in. */
  const DemoNamespace: string := "web"

  /** The label pair the deployment carries and both selectors name. */
  const AppLabels: Labels := map["app" := "test-golang"]

  const DemoContainer: Container :=
    Container("test", "nginx:1.16.1", IfNotPresent, [ContainerPort("http", 80, TCP)])

  const DemoDeployment: Deployment :=
    Deployment("test-golang", DemoNamespace, AppLabels, Some(2), AppLabels,
               PodTemplate(AppLabels, [DemoContainer]))

  /** ClusterIP is left empty, for the API server to allocate. */
  const DemoService: Service :=
    Service("go-nginx-svc", DemoNamespace, map["svc" := "go-nginx"], AppLabels, NodePort, "",
            [ServicePort("http", 80, TCP, 6110)])

  /** One Create call: where it goes, what it submits, how the program ends. */
  datatype Creation<+T> = Creation(namespace: string, body: T, outcome: Outcome<T>)

  function CreateOutcome<T>(response: ApiResult<T>): Outcome<T> {
    match response
    case Ok(v) => Done(v)
    case Err(e) => Fatal(CreateFailed(e))
  }

  /** CreateDeployment submits a valid deployment of two replicas whose
      selector is exactly its pod-template labels. */
  function CreateDeployment(response: ApiResult<Deployment>): (call: Creation<Deployment>)
    ensures call.namespace == call.body.namespace
    ensures ValidDeployment(call.body)
    ensures call.body.selector == call.body.template.labels
    ensures call.body.replicas == Some(2)
    ensures call.body.template.containers == [Container("test", "nginx:1.16.1", IfNotPresent, [ContainerPort("http", 80, TCP)])]
    ensures call.outcome.Fatal? <==> response.Err?
    ensures response.Err? ==> call.outcome.failure == CreateFailed(response.error)
  {
    Creation(DemoNamespace, DemoDeployment, CreateOutcome(response))
  }

  /** CreateSvc submits a node-port service, in the deployment's namespace,
      whose selector picks the deployment's pods. */
  function CreateSvc(response: ApiResult<Service>): (call: Creation<Service>)
    ensures call.namespace == call.body.namespace == DemoDeployment.namespace
    ensures Exposes(call.body, DemoDeployment)
    ensures call.body.selector == DemoDeployment.template.labels
    ensures call.body.serviceType == NodePort
    ensures call.body.ports == [ServicePort("http", 80, TCP, 6110)]
    ensures call.outcome.Fatal? <==> response.Err?
    ensures response.Err? ==> call.outcome.failure == CreateFailed(response.error)
  {
    Creation(DemoNamespace, DemoService, CreateOutcome(response))
  }

  /** A hypothetical sequence of calls (the program's entry point makes
      none of them): CreateDeployment, then EditDeployment, then EditImage,
      with each Get returning the object last submitted.  The replica count
      goes 2 -> 3, the image becomes nginx:1.18.0 with the count still 3,
      and the service still selects the pods. */
  lemma DemoScenario(updated: ApiResult<Deployment>)
    ensures var scaled := Workloads.EditDeployment(Ok(DemoDeployment), updated);
      && scaled.submitted.Some?
      && scaled.submitted.value.replicas == Some(3)
      && var imaged := Workloads.EditImage(Ok(scaled.submitted.value), updated);
      && imaged.submitted.Some?
      && imaged.submitted.value.replicas == Some(3)
      && imaged.submitted.value.template.containers[0].image == Workloads.NewImage
      && ValidDeployment(imaged.submitted.value)
      && Exposes(DemoService, imaged.submitted.value)
  {
  }

  /** Hypothetical repeated EditDeployment runs on the created deployment,
      each fetching what the previous one submitted: only the replica count
      changes, and it is 2 after an even number of runs and 3 after an odd
      number. */
  lemma DemoToggles(k: nat)
    ensures Workloads.ScaleTimes(DemoDeployment, k) ==
      Done(DemoDeployment.(replicas := Some(if k % 2 == 0 then 2 else 3)))
  {
    Workloads.ScaleTimesIterates(DemoDeployment, k);
    Scaling.Oscillate(k);
  }
}
