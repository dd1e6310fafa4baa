/**
 The wiring around the compiled program: decide, split, audit, sample and the sinks, as a graph that
 events flow through, and what reaches which sink.
 */
module Topology {
  import opened Vrl
  import opened Meaning

  type Event = map<string, Val>

  // ---------------------------------------------------------------- the graph

  datatype Id =
    | Ingest | Decide | Split | Audit | TailSample | DropFilter | Tail
    | Elk | DropAudit | ControlPlaneTail | Metrics

  datatype Out = Plain | Route(name: string) | Unmatched

  datatype Port = Port(id: Id, out: Out)

  /** A condition is a test of the event; a remap replaces the event; a sampler lets an excluded event
      through and leaves the rest to `chosen`. */
  datatype Component =
    | Source
    | Remap(inputs: seq<Port>, f: Event -> Event)
    | Router(inputs: seq<Port>, routes: map<string, Event -> bool>)
    | Filter(inputs: seq<Port>, test: Event -> bool)
    | Sampler(inputs: seq<Port>, exclude: Event -> bool)
    | Sink(inputs: seq<Port>)

  type Config = map<Id, Component>

  function Depth(id: Id): nat {
    match id
    case Ingest => 0
    case Decide => 1
    case Split => 2
    case TailSample => 2
    case DropFilter => 2
    case Audit => 3
    case Tail => 3
    case _ => 4
  }

  function Inputs(c: Component): seq<Port> { if c.Source? then [] else c.inputs }

  /** Every input comes from a component nearer the source, so the graph has no cycle. */
  predicate Wired(cfg: Config) {
    forall id :: id in cfg ==>
      forall i :: 0 <= i < |Inputs(cfg[id])| ==> Depth(Inputs(cfg[id])[i].id) < Depth(id)
  }

  /** What a component sends out of a port for one event it receives. */
  function Emit(c: Component, out: Out, e: Event, chosen: bool): seq<Event> {
    match c
    case Source => [e]
    case Remap(_, f) => [f(e)]
    case Router(_, routes) =>
      (match out
       case Plain => []
       case Route(name) => if name in routes && routes[name](e) then [e] else []
       case Unmatched => if forall name :: name in routes ==> !routes[name](e) then [e] else [])
    case Filter(_, test) => if test(e) then [e] else []
    case Sampler(_, exclude) => if exclude(e) || chosen then [e] else []
    case Sink(_) => []
  }

  function EmitAll(c: Component, out: Out, es: seq<Event>, chosen: bool): seq<Event> {
    if es == [] then [] else Emit(c, out, es[0], chosen) + EmitAll(c, out, es[1..], chosen)
  }

  /** What arrives at a component when `e` enters the source. */
  function Received(cfg: Config, id: Id, e: Event, chosen: bool): seq<Event>
    requires Wired(cfg)
    decreases Depth(id), 1, 0
  {
    if id !in cfg then []
    else if cfg[id].Source? then [e]
    else
      assert forall i :: 0 <= i < |Inputs(cfg[id])| ==> Depth(Inputs(cfg[id])[i].id) < Depth(id);
      FromPorts(cfg, id, Inputs(cfg[id]), e, chosen)
  }

  function FromPorts(cfg: Config, id: Id, ports: seq<Port>, e: Event, chosen: bool): seq<Event>
    requires Wired(cfg) && forall i :: 0 <= i < |ports| ==> Depth(ports[i].id) < Depth(id)
    decreases Depth(id), 0, |ports|
  {
    if ports == [] then []
    else Sent(cfg, ports[0], e, chosen) + FromPorts(cfg, id, ports[1..], e, chosen)
  }

  function Sent(cfg: Config, p: Port, e: Event, chosen: bool): seq<Event>
    requires Wired(cfg)
    decreases Depth(p.id), 2, 0
  {
    if p.id !in cfg then [] else EmitAll(cfg[p.id], p.out, Received(cfg, p.id, e, chosen), chosen)
  }

  // ---------------------------------------------------------------- the configuration that is built

  function DecisionVal(e: Event): Val { Walk(Obj(e), ["ss", "decision"]) }

  predicate IsDrop(e: Event) { DecisionVal(e) == Str("drop") }

  function SsField(e: Event, name: string): Val { Walk(Obj(e), ["ss", name]) }

  function MessageText(lib: Library, e: Event): string {
    Textual(lib, if "message" in e then e["message"] else Null)
  }

  function Metadata(node: string, e: Event): Event {
    map["@timestamp" := SsField(e, "ts"),
        "decision" := SsField(e, "decision"),
        "reason" := SsField(e, "reason"),
        "rule_id" := SsField(e, "rule_id"),
        "rule_version" := SsField(e, "rule_version"),
        "chain_version" := SsField(e, "chain_version"),
        "event_id" := SsField(e, "event_id"),
        "severity" := SsField(e, "severity"),
        "host" := SsField(e, "host"),
        "name" := SsField(e, "name"),
        "node" := Str(node)]
  }

  /** The drop audit record: metadata always, the raw text only when the rule asked for it. */
  function AuditRecord(lib: Library, node: string, e: Event): Event {
    if SsField(e, "retain") == Bool(true) then Metadata(node, e)["raw" := Str(MessageText(lib, e))]
    else Metadata(node, e)
  }

  /** The compact record for the live view. */
  function TailRecord(lib: Library, node: string, e: Event): Event {
    map["ts" := SsField(e, "ts"),
        "decision" := SsField(e, "decision"),
        "reason" := SsField(e, "reason"),
        "rule_id" := SsField(e, "rule_id"),
        "rule_version" := SsField(e, "rule_version"),
        "event_id" := SsField(e, "event_id"),
        "node" := Str(node),
        "cef_ok" := SsField(e, "cef_ok"),
        "syslog_ok" := SsField(e, "syslog_ok"),
        "fields" := Obj(map["severity" := SsField(e, "severity"),
                            "filterhostname" := SsField(e, "host"),
                            "name" := SsField(e, "name")]),
        "raw" := Str(MessageText(lib, e))]
  }

  /** The topology with given route conditions. */
  function BuildConfig(lib: Library, node: string, decide: Event -> Event, routes: map<string, Event -> bool>): Config {
    map[Ingest := Source,
        Decide := Remap([Port(Ingest, Plain)], decide),
        Split := Router([Port(Decide, Plain)], routes),
        Audit := Remap([Port(Split, Route("dropped"))], e => AuditRecord(lib, node, e)),
        TailSample := Sampler([Port(Decide, Plain)], e => IsDrop(e)),
        Tail := Remap([Port(TailSample, Plain)], e => TailRecord(lib, node, e)),
        Elk := Sink([Port(Split, Route("forward")), Port(Split, Unmatched)]),
        DropAudit := Sink([Port(Audit, Plain)]),
        ControlPlaneTail := Sink([Port(Tail, Plain)]),
        Metrics := Sink([Port(Decide, Plain)])]
  }

  function SplitRoutes(): map<string, Event -> bool> {
    map["forward" := e => !IsDrop(e), "dropped" := e => IsDrop(e)]
  }

  // ---------------------------------------------------------------- following one event

  lemma {:induction false} ThroughOne(cfg: Config, id: Id, p: Port, e: Event, chosen: bool)
    requires Wired(cfg) && id in cfg && Inputs(cfg[id]) == [p] && p.id in cfg
    ensures Received(cfg, id, e, chosen) == EmitAll(cfg[p.id], p.out, Received(cfg, p.id, e, chosen), chosen)
  {
    assert [p][1..] == [];
    assert FromPorts(cfg, id, [], e, chosen) == [];
    assert FromPorts(cfg, id, [p], e, chosen) == Sent(cfg, p, e, chosen) + [];
  }

  lemma {:induction false} ThroughTwo(cfg: Config, id: Id, p: Port, q: Port, e: Event, chosen: bool)
    requires Wired(cfg) && id in cfg && Inputs(cfg[id]) == [p, q] && p.id in cfg && q.id in cfg
    ensures Received(cfg, id, e, chosen) ==
            EmitAll(cfg[p.id], p.out, Received(cfg, p.id, e, chosen), chosen)
            + EmitAll(cfg[q.id], q.out, Received(cfg, q.id, e, chosen), chosen)
  {
    assert [p, q][1..] == [q] && [q][1..] == [];
    assert FromPorts(cfg, id, [], e, chosen) == [];
    assert FromPorts(cfg, id, [q], e, chosen) == Sent(cfg, q, e, chosen) + [];
    assert FromPorts(cfg, id, [p, q], e, chosen) == Sent(cfg, p, e, chosen) + FromPorts(cfg, id, [q], e, chosen);
  }

  lemma {:induction false} EmitOne(c: Component, out: Out, e: Event, chosen: bool)
    ensures EmitAll(c, out, [e], chosen) == Emit(c, out, e, chosen)
    ensures EmitAll(c, out, [], chosen) == []
  {
    assert [e][1..] == [];
    assert EmitAll(c, out, [e], chosen) == Emit(c, out, e, chosen) + EmitAll(c, out, [], chosen);
  }

  /** Up to the router: what was decided, once. */
  ghost predicate Upstream(cfg: Config, decide: Event -> Event) {
    && Wired(cfg) && Ingest in cfg && cfg[Ingest].Source?
    && Decide in cfg && cfg[Decide] == Remap([Port(Ingest, Plain)], decide)
  }

  lemma {:induction false} DecidedSent(cfg: Config, decide: Event -> Event, id: Id, e: Event, chosen: bool)
    requires Upstream(cfg, decide) && id in cfg && Inputs(cfg[id]) == [Port(Decide, Plain)]
    ensures Received(cfg, id, e, chosen) == [decide(e)]
  {
    ThroughOne(cfg, Decide, Port(Ingest, Plain), e, chosen);
    ThroughOne(cfg, id, Port(Decide, Plain), e, chosen);
    EmitOne(cfg[Ingest], Plain, e, chosen);
    EmitOne(cfg[Decide], Plain, e, chosen);
  }

  lemma {:induction false} BuiltDecides(lib: Library, node: string, decide: Event -> Event,
                                        routes: map<string, Event -> bool>)
    ensures Upstream(BuildConfig(lib, node, decide, routes), decide)
  {
  }

  predicate Sends(routes: map<string, Event -> bool>, name: string, e: Event) { name in routes && routes[name](e) }

  predicate SendsNone(routes: map<string, Event -> bool>, e: Event) {
    forall name :: name in routes ==> !routes[name](e)
  }

  /** What reaches the ELK sink, for any route conditions. */
  lemma {:induction false} ElkReceives(lib: Library, node: string, decide: Event -> Event,
                                       routes: map<string, Event -> bool>, e: Event, chosen: bool)
    ensures Upstream(BuildConfig(lib, node, decide, routes), decide)
    ensures Received(BuildConfig(lib, node, decide, routes), Elk, e, chosen) ==
            (if Sends(routes, "forward", decide(e)) then [decide(e)] else [])
            + (if SendsNone(routes, decide(e)) then [decide(e)] else [])
  {
    var cfg := BuildConfig(lib, node, decide, routes);
    BuiltDecides(lib, node, decide, routes);
    DecidedSent(cfg, decide, Split, e, chosen);
    ThroughTwo(cfg, Elk, Port(Split, Route("forward")), Port(Split, Unmatched), e, chosen);
    EmitOne(cfg[Split], Route("forward"), decide(e), chosen);
    EmitOne(cfg[Split], Unmatched, decide(e), chosen);
  }

  /** What reaches the drop audit, for any route conditions. */
  lemma {:induction false} AuditReceives(lib: Library, node: string, decide: Event -> Event,
                                         routes: map<string, Event -> bool>, e: Event, chosen: bool)
    ensures Upstream(BuildConfig(lib, node, decide, routes), decide)
    ensures Received(BuildConfig(lib, node, decide, routes), DropAudit, e, chosen) ==
            if Sends(routes, "dropped", decide(e)) then [AuditRecord(lib, node, decide(e))] else []
  {
    var cfg := BuildConfig(lib, node, decide, routes);
    BuiltDecides(lib, node, decide, routes);
    DecidedSent(cfg, decide, Split, e, chosen);
    ThroughOne(cfg, Audit, Port(Split, Route("dropped")), e, chosen);
    ThroughOne(cfg, DropAudit, Port(Audit, Plain), e, chosen);
    EmitOne(cfg[Split], Route("dropped"), decide(e), chosen);
    EmitOne(cfg[Audit], Plain, decide(e), chosen);
  }

  /** What reaches the live view: every drop once, other events when the sampler chose them. */
  lemma {:induction false} TailReceives(lib: Library, node: string, decide: Event -> Event,
                                        routes: map<string, Event -> bool>, e: Event, chosen: bool)
    ensures Upstream(BuildConfig(lib, node, decide, routes), decide)
    ensures Received(BuildConfig(lib, node, decide, routes), ControlPlaneTail, e, chosen) ==
            if IsDrop(decide(e)) || chosen then [TailRecord(lib, node, decide(e))] else []
  {
    var cfg := BuildConfig(lib, node, decide, routes);
    BuiltDecides(lib, node, decide, routes);
    DecidedSent(cfg, decide, TailSample, e, chosen);
    ThroughOne(cfg, Tail, Port(TailSample, Plain), e, chosen);
    ThroughOne(cfg, ControlPlaneTail, Port(Tail, Plain), e, chosen);
    EmitOne(cfg[TailSample], Plain, decide(e), chosen);
    EmitOne(cfg[Tail], Plain, decide(e), chosen);
  }

  /** Every event is counted once, as it was decided. */
  lemma {:induction false} MetricsReceives(lib: Library, node: string, decide: Event -> Event,
                                           routes: map<string, Event -> bool>, e: Event, chosen: bool)
    ensures Upstream(BuildConfig(lib, node, decide, routes), decide)
    ensures Received(BuildConfig(lib, node, decide, routes), Metrics, e, chosen) == [decide(e)]
  {
    BuiltDecides(lib, node, decide, routes);
    DecidedSent(BuildConfig(lib, node, decide, routes), decide, Metrics, e, chosen);
  }

  /** Failing open at the routing layer: whatever the two route conditions are, no event is lost. */
  lemma {:induction false} NothingLost(lib: Library, node: string, decide: Event -> Event,
                                       routes: map<string, Event -> bool>, e: Event, chosen: bool)
    requires routes.Keys == {"forward", "dropped"}
    ensures Upstream(BuildConfig(lib, node, decide, routes), decide)
    ensures var cfg := BuildConfig(lib, node, decide, routes);
            |Received(cfg, Elk, e, chosen)| + |Received(cfg, DropAudit, e, chosen)| >= 1
  {
    ElkReceives(lib, node, decide, routes, e, chosen);
    AuditReceives(lib, node, decide, routes, e, chosen);
  }
}
