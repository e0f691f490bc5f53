/** The slice of the Kubernetes object model the program reads and writes:
    Deployment (apps/v1), Service and Namespace (core/v1).  Only the fields
    the program sets or prints are kept. */
module Resources {
  import opened Results

  /** Go's int32, the width of replica counts and port numbers. */
  type Int32 = x: int | -0x8000_0000 <= x < 0x8000_0000

  /** A label set, `map[string]string` in Go. */
  type Labels = map<string, string>

  datatype Protocol = TCP | UDP | SCTP

  datatype PullPolicy = Always | IfNotPresent | Never

  datatype ContainerPort = ContainerPort(name: string, containerPort: Int32, protocol: Protocol)

  datatype Container = Container(
    name: string,
    image: string,
    imagePullPolicy: PullPolicy,
    ports: seq<ContainerPort>)

  datatype PodTemplate = PodTemplate(labels: Labels, containers: seq<Container>)

  /** `replicas` is Go's `*int32`: `None` is a nil pointer. `selector` is the
      label selector's `MatchLabels`. */
  datatype Deployment = Deployment(
    name: string,
    namespace: string,
    labels: Labels,
    replicas: Option<Int32>,
    selector: Labels,
    template: PodTemplate)

  datatype ServiceType = ClusterIP | NodePort | LoadBalancer | ExternalName

  datatype ServicePort = ServicePort(name: string, port: Int32, protocol: Protocol, nodePort: Int32)

  datatype Service = Service(
    name: string,
    namespace: string,
    labels: Labels,
    selector: Labels,
    serviceType: ServiceType,
    clusterIP: string,
    ports: seq<ServicePort>)

  datatype Namespace = Namespace(name: string)

  /** A `MatchLabels` selector picks a pod when every pair it names is among
      the pod's labels. */
  predicate Selects(selector: Labels, podLabels: Labels) {
    forall key :: key in selector ==> key in podLabels && podLabels[key] == selector[key]
  }

  predicate DistinctNames(containers: seq<Container>) {
    forall i, j :: 0 <= i < j < |containers| ==> containers[i].name != containers[j].name
  }

  /** What a Deployment needs for the API server to accept it and for its
      controller to recognise its own pods. */
  predicate ValidDeployment(d: Deployment) {
    && (d.replicas.Some? ==> d.replicas.value >= 0)
    && |d.template.containers| >= 1
    && DistinctNames(d.template.containers)
    && |d.selector| > 0
    && Selects(d.selector, d.template.labels)
  }

  /** A Service routes traffic to a Deployment's pods when its (non-empty)
      selector picks the pod template's labels. */
  predicate Exposes(svc: Service, d: Deployment) {
    |svc.selector| > 0 && Selects(svc.selector, d.template.labels)
  }
}
