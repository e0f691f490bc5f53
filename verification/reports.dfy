/** GetDeployment and GetSvc: the records they print, as data instead of
    formatted text. */
module Reports {
  import opened Results
  import opened Resources
  import opened Listing

  /** One printed line of GetDeployment: the deployment's own namespace
      field and its name. */
  datatype DeploymentLine = DeploymentLine(namespace: string, name: string)

  /** GetSvc prints a header record per service and then one record per
      port of that service. */
  datatype SvcLine =
    | SvcHeader(namespace: string, name: string, clusterIP: string, labels: Labels)
    | PortLine(protocol: Protocol, port: Int32, nodePort: Int32)

  function DeploymentLines(d: Deployment): seq<DeploymentLine> {
    [DeploymentLine(d.namespace, d.name)]
  }

  function HeaderOf(svc: Service): SvcLine {
    SvcHeader(svc.namespace, svc.name, svc.clusterIP, svc.labels)
  }

  function PortLines(ports: seq<ServicePort>): seq<SvcLine> {
    seq(|ports|, i requires 0 <= i < |ports| => PortLine(ports[i].protocol, ports[i].port, ports[i].nodePort))
  }

  /** The records printed for one service: a header, then its ports. */
  function ServiceLines(svc: Service): seq<SvcLine> {
    [HeaderOf(svc)] + PortLines(svc.ports)
  }

  /** GetDeployment.  If listing namespaces fails nothing is printed; else
      the run prints the deployments of each namespace in order and stops at
      the first namespace whose list fails. */
  method GetDeployment(nsListed: ApiResult<seq<Namespace>>,
                       listDeployments: string -> ApiResult<seq<Deployment>>)
    returns (report: Report<DeploymentLine>)
    ensures nsListed.Err? ==> report == Report([], Some(ListNamespacesFailed(nsListed.error)))
    ensures nsListed.Ok? ==> report == Expected(NamesOf(nsListed.value), listDeployments, DeploymentLines)
  {
    report := ListAllNamespaces(nsListed, listDeployments, DeploymentLines);
  }

  /** GetSvc, with the same fail-fast loop and one block of records per
      service. */
  method GetSvc(nsListed: ApiResult<seq<Namespace>>, listServices: string -> ApiResult<seq<Service>>)
    returns (report: Report<SvcLine>)
    ensures nsListed.Err? ==> report == Report([], Some(ListNamespacesFailed(nsListed.error)))
    ensures nsListed.Ok? ==> report == Expected(NamesOf(nsListed.value), listServices, ServiceLines)
  {
    report := ListAllNamespaces(nsListed, listServices, ServiceLines);
  }

  /** The deployment lines of namespaces that all listed are one line per
      listed deployment, in list order. */
  lemma {:induction false} DeploymentLinesInOrder(namespaces: seq<string>,
                                                 listDeployments: string -> ApiResult<seq<Deployment>>)
    requires AllListed(namespaces, listDeployments)
    ensures var lines, ds := Flatten(namespaces, listDeployments, DeploymentLines), Listed(namespaces, listDeployments);
      |lines| == |ds| &&
      forall i :: 0 <= i < |ds| ==> lines[i] == DeploymentLine(ds[i].namespace, ds[i].name)
  {
    FlattenIsEmitListed(namespaces, listDeployments, DeploymentLines);
    SingleLines(Listed(namespaces, listDeployments));
  }

  lemma {:induction false} SingleLines(ds: seq<Deployment>)
    ensures |EmitAll(ds, DeploymentLines)| == |ds|
    ensures forall i :: 0 <= i < |ds| ==> EmitAll(ds, DeploymentLines)[i] == DeploymentLine(ds[i].namespace, ds[i].name)
    decreases |ds|
  {
    if |ds| > 0 {
      SingleLines(ds[..|ds| - 1]);
    }
  }

  /** A deployment line is printed for namespaces that all listed exactly
      when some namespace's list returned a deployment with that namespace
      field and name. */
  lemma DeploymentLineMembers(namespaces: seq<string>, listDeployments: string -> ApiResult<seq<Deployment>>,
                              line: DeploymentLine)
    requires AllListed(namespaces, listDeployments)
    ensures line in Flatten(namespaces, listDeployments, DeploymentLines) <==>
      exists d :: d in Listed(namespaces, listDeployments) && line == DeploymentLine(d.namespace, d.name)
  {
    var ds := Listed(namespaces, listDeployments);
    FlattenIsEmitListed(namespaces, listDeployments, DeploymentLines);
    EmitAllMembers(ds, DeploymentLines, line);
    if exists d :: d in ds && line == DeploymentLine(d.namespace, d.name) {
      var d :| d in ds && line == DeploymentLine(d.namespace, d.name);
      var j :| 0 <= j < |ds| && ds[j] == d;
      assert line in DeploymentLines(ds[j]);
    }
  }

  /** One service as read back from the printed records. */
  datatype ServiceBlock = ServiceBlock(header: SvcLine, ports: seq<SvcLine>)

  function BlockOf(svc: Service): ServiceBlock {
    ServiceBlock(HeaderOf(svc), PortLines(svc.ports))
  }

  function BlocksOf(svcs: seq<Service>): seq<ServiceBlock> {
    seq(|svcs|, i requires 0 <= i < |svcs| => BlockOf(svcs[i]))
  }

  /** The length of the run of port records at the front of `lines`. */
  function LeadingPorts(lines: seq<SvcLine>): (n: nat)
    ensures n <= |lines|
    ensures forall i :: 0 <= i < n ==> lines[i].PortLine?
    ensures n < |lines| ==> lines[n].SvcHeader?
  {
    if |lines| == 0 || lines[0].SvcHeader? then 0 else 1 + LeadingPorts(lines[1..])
  }

  /** Reads printed service records back as blocks: a header and the port
      records that follow it.  A port record with no header before it is
      rejected. */
  function Parse(lines: seq<SvcLine>): Option<seq<ServiceBlock>>
    decreases |lines|
  {
    if |lines| == 0 then Some([])
    else if lines[0].PortLine? then None
    else
      var n := LeadingPorts(lines[1..]);
      match Parse(lines[1 + n..])
      case None => None
      case Some(rest) => Some([ServiceBlock(lines[0], lines[1..1 + n])] + rest)
  }

  lemma {:induction false} LeadingPortsOf(ports: seq<SvcLine>, tail: seq<SvcLine>)
    requires forall i :: 0 <= i < |ports| ==> ports[i].PortLine?
    requires |tail| > 0 ==> tail[0].SvcHeader?
    ensures LeadingPorts(ports + tail) == |ports|
    decreases |ports|
  {
    if |ports| > 0 {
      assert (ports + tail)[1..] == ports[1..] + tail;
      LeadingPortsOf(ports[1..], tail);
    }
  }

  lemma {:induction false} ServiceLinesStartWithHeader(svcs: seq<Service>)
    ensures |EmitAll(svcs, ServiceLines)| > 0 ==> EmitAll(svcs, ServiceLines)[0].SvcHeader?
    decreases |svcs|
  {
    if |svcs| > 0 {
      var n := |svcs| - 1;
      ServiceLinesStartWithHeader(svcs[..n]);
    }
  }

  /** One header, its port records and then either nothing or another
      header: Parse takes exactly those ports as the header's block. */
  lemma ParseBlock(header: SvcLine, ports: seq<SvcLine>, tail: seq<SvcLine>)
    requires header.SvcHeader?
    requires forall i :: 0 <= i < |ports| ==> ports[i].PortLine?
    requires |tail| > 0 ==> tail[0].SvcHeader?
    ensures Parse([header] + ports + tail) ==
      match Parse(tail)
      case None => None
      case Some(rest) => Some([ServiceBlock(header, ports)] + rest)
  {
    var lines := [header] + ports + tail;
    assert lines[1..] == ports + tail;
    LeadingPortsOf(ports, tail);
    assert lines[1..1 + |ports|] == ports;
    assert lines[1 + |ports|..] == tail;
  }

  /** The service records are unambiguous: reading them back yields each
      service's header followed by exactly its own ports, service by service. */
  lemma {:induction false} ParseServiceLines(svcs: seq<Service>)
    ensures Parse(EmitAll(svcs, ServiceLines)) == Some(BlocksOf(svcs))
    decreases |svcs|
  {
    if |svcs| > 0 {
      var s, rest := svcs[0], svcs[1..];
      EmitAllCons(svcs, ServiceLines);
      var tail := EmitAll(rest, ServiceLines);
      assert EmitAll(svcs, ServiceLines) == [HeaderOf(s)] + PortLines(s.ports) + tail;
      ServiceLinesStartWithHeader(rest);
      ParseBlock(HeaderOf(s), PortLines(s.ports), tail);
      ParseServiceLines(rest);
      assert BlocksOf(svcs) == [BlockOf(s)] + BlocksOf(rest);
    }
  }

  /** Whatever GetSvc printed, up to a failure or to the end, reads back as
      the blocks of the services listed in the namespaces it got through. */
  lemma ServiceReportParses(namespaces: seq<string>, listServices: string -> ApiResult<seq<Service>>)
    requires AllListed(namespaces, listServices)
    ensures Parse(Flatten(namespaces, listServices, ServiceLines)) == Some(BlocksOf(Listed(namespaces, listServices)))
  {
    FlattenIsEmitListed(namespaces, listServices, ServiceLines);
    ParseServiceLines(Listed(namespaces, listServices));
  }
}
