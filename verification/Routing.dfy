/** Routing conservation: where the events of a whole stream end up under the compiled program. */
module Routing {
  import opened Common
  import opened Vrl
  import opened Rules
  import opened Compiler
  import opened Meaning
  import opened Topology
  import Consequences
  import Programs
  import Theorem

  /** The decide step: a program that halted would pass the event on as it was. */
  ghost function Decided(lib: Library, program: seq<Stmt>, e: Event): Event {
    var run := RunProgram(lib, e, program);
    if run.Running? then run.st.event else e
  }

  ghost function Deployed(lib: Library, node: string, program: seq<Stmt>): Config {
    BuildConfig(lib, node, e => Decided(lib, program, e), SplitRoutes())
  }

  ghost predicate Dropped(lib: Library, chain: Chain, e: Event)
    requires Sound(lib)
  {
    Consequences.Dropped(lib, ViewOf(lib, e), chain)
  }

  /** The event after the decide step. */
  ghost function Marked(lib: Library, chain: Chain, version: int, e: Event): Event
    requires Sound(lib)
  {
    e["ss" := Obj(RecordOf(lib, e, chain, version))]
  }

  ghost predicate Runs(lib: Library, chain: Chain, version: int, program: seq<Stmt>) {
    && Sound(lib) && UniqueIds(chain.rules) && CompileText(chain, version).Ok?
    && Programs.ReadProgram(CompileText(chain, version).value) == Some(program)
  }

  lemma {:induction false} DecidedIs(lib: Library, chain: Chain, version: int, program: seq<Stmt>, e: Event)
    requires Runs(lib, chain, version, program)
    ensures Decided(lib, program, e) == Marked(lib, chain, version, e)
  {
    var p, st := Theorem.CompilerCorrect(lib, e, chain, version);
  }

  lemma {:induction false} WalkTwo(e: Event, m: map<string, Val>, a: string, k: string)
    requires a in e && e[a] == Obj(m)
    ensures Walk(Obj(e), [a, k]) == if k in m then m[k] else Null
  {
    assert [a, k][1..] == [k];
    assert Walk(Obj(e), [a, k]) == Walk(Obj(m), [k]);
    assert [k][1..] == [];
    if k in m { assert Walk(m[k], []) == m[k]; }
  }

  /** What a record says about the verdict. */
  predicate Tells(record: map<string, Val>, v: Verdict, version: int) {
    && "chain_version" in record && record["chain_version"] == Int(version)
    && "decision" in record && record["decision"] == Str(v.decision)
    && "reason" in record && record["reason"] == Str(v.reason)
    && "rule_id" in record && record["rule_id"] == v.ruleId
    && "rule_version" in record && record["rule_version"] == v.ruleVersion
    && "retain" in record && record["retain"] == Bool(v.retain)
  }

  /** What it says about parsing and the event. */
  predicate Shows(lib: Library, record: map<string, Val>, view: View) {
    && "parse_ok" in record && record["parse_ok"] == Bool(view.syslogOk || view.cefOk)
    && "cef_ok" in record && record["cef_ok"] == Bool(view.cefOk)
    && "syslog_ok" in record && record["syslog_ok"] == Bool(view.syslogOk)
    && "ts" in record && record["ts"] == Str(Textual(lib, lib.now))
    && "event_id" in record && record["event_id"] == Str(SummaryOf(lib, view.ev, "eventid", "msgid"))
    && "severity" in record && record["severity"] == Str(SummaryOf(lib, view.ev, "severity", "severity"))
    && "host" in record && record["host"] == Str(SummaryOf(lib, view.ev, "filterhostname", "hostname"))
    && "name" in record && record["name"] == Str(SummaryOf(lib, view.ev, "name", "appname"))
  }

  lemma {:induction false} VerdictTold(v: Verdict, version: int)
    ensures Tells(VerdictFields(v, version), v, version)
  {
  }

  lemma {:induction false} VerdictKeysApart(lib: Library, view: View, k: string)
    requires k in {"chain_version", "decision", "reason", "rule_id", "rule_version", "retain"}
    ensures k !in ParserFields(lib, view) && k !in SummaryFields(lib, view.ev)
  {
  }

  lemma {:induction false} ParserKeysApart(lib: Library, view: View, k: string)
    requires k in {"parse_ok", "cef_ok", "syslog_ok", "ts"}
    ensures k !in SummaryFields(lib, view.ev) && k in ParserFields(lib, view)
  {
  }

  lemma {:induction false} RecordTells(v: Verdict, version: int, lib: Library, view: View)
    ensures Tells(VerdictFields(v, version) + ParserFields(lib, view) + SummaryFields(lib, view.ev), v, version)
  {
    VerdictTold(v, version);
    forall k | k in {"chain_version", "decision", "reason", "rule_id", "rule_version", "retain"}
      ensures k !in ParserFields(lib, view) && k !in SummaryFields(lib, view.ev)
    {
      VerdictKeysApart(lib, view, k);
    }
  }

  lemma {:induction false} PartsShow(lib: Library, view: View)
    ensures Shows(lib, ParserFields(lib, view) + SummaryFields(lib, view.ev), view)
  {
    forall k | k in {"parse_ok", "cef_ok", "syslog_ok", "ts"}
      ensures k !in SummaryFields(lib, view.ev) && k in ParserFields(lib, view)
    {
      ParserKeysApart(lib, view, k);
    }
  }

  lemma {:induction false} RecordShows(v: map<string, Val>, lib: Library, view: View)
    ensures Shows(lib, v + ParserFields(lib, view) + SummaryFields(lib, view.ev), view)
  {
    var p, s := ParserFields(lib, view), SummaryFields(lib, view.ev);
    PartsShow(lib, view);
    Theorem.MapAssociative(v, p, s);
    ShowsOver(lib, v, p + s, view);
  }

  lemma {:induction false} ShowsOver(lib: Library, v: map<string, Val>, m: map<string, Val>, view: View)
    requires Shows(lib, m, view)
    ensures Shows(lib, v + m, view)
  {
  }

  lemma {:induction false} MessageStays(e: Event, v: Val)
    ensures "message" in e["ss" := v] <==> "message" in e
    ensures "message" in e ==> e["ss" := v]["message"] == e["message"]
  {
    assert "message" != "ss";
  }

  /** Looking below `.ss` of the marked event is looking in the record. */
  lemma {:induction false} MarkedField(lib: Library, chain: Chain, version: int, e: Event, k: string)
    requires Sound(lib)
    ensures var record := RecordOf(lib, e, chain, version);
            SsField(Marked(lib, chain, version, e), k) == if k in record then record[k] else Null
  {
    WalkTwo(Marked(lib, chain, version, e), RecordOf(lib, e, chain, version), "ss", k);
  }

  lemma {:induction false} RecordMeans(lib: Library, chain: Chain, version: int, e: Event)
    requires Sound(lib)
    ensures Tells(RecordOf(lib, e, chain, version), Judge(lib, ViewOf(lib, e), chain), version)
    ensures Shows(lib, RecordOf(lib, e, chain, version), ViewOf(lib, e))
  {
    var verdict := Judge(lib, ViewOf(lib, e), chain);
    RecordTells(verdict, version, lib, ViewOf(lib, e));
    RecordShows(VerdictFields(verdict, version), lib, ViewOf(lib, e));
  }

  lemma {:induction false} DropDecided(lib: Library, chain: Chain, version: int, e: Event)
    requires Sound(lib)
    ensures IsDrop(Marked(lib, chain, version, e)) <==> Dropped(lib, chain, e)
  {
    RecordMeans(lib, chain, version, e);
    MarkedField(lib, chain, version, e, "decision");
  }

  // ---------------------------------------------------------------- one event

  /** A kept event reaches the ELK sink once and nothing else; a dropped one reaches the drop audit once
      and the live view once, whatever the sampler chose. */
  ghost predicate Routed(lib: Library, node: string, chain: Chain, version: int, cfg: Config, e: Event, chosen: bool)
    requires Sound(lib) && Wired(cfg)
  {
    var d, drop := Marked(lib, chain, version, e), Dropped(lib, chain, e);
    && Received(cfg, Elk, e, chosen) == (if drop then [] else [d])
    && Received(cfg, DropAudit, e, chosen) == (if drop then [AuditRecord(lib, node, d)] else [])
    && Received(cfg, ControlPlaneTail, e, chosen) == (if drop || chosen then [TailRecord(lib, node, d)] else [])
  }

  lemma {:induction false} EventRouted(lib: Library, node: string, chain: Chain, version: int, program: seq<Stmt>,
                                       e: Event, chosen: bool)
    requires Runs(lib, chain, version, program)
    ensures Wired(Deployed(lib, node, program))
    ensures Routed(lib, node, chain, version, Deployed(lib, node, program), e, chosen)
  {
    var decide := e => Decided(lib, program, e);
    DecidedIs(lib, chain, version, program, e);
    DropDecided(lib, chain, version, e);
    ElkReceives(lib, node, decide, SplitRoutes(), e, chosen);
    AuditReceives(lib, node, decide, SplitRoutes(), e, chosen);
    TailReceives(lib, node, decide, SplitRoutes(), e, chosen);
    RoutesExclusive(Marked(lib, chain, version, e));
  }

  lemma {:induction false} RoutesExclusive(e: Event)
    ensures Sends(SplitRoutes(), "forward", e) == !IsDrop(e)
    ensures Sends(SplitRoutes(), "dropped", e) == IsDrop(e)
    ensures !SendsNone(SplitRoutes(), e)
  {
    assert "forward" in SplitRoutes() && "dropped" in SplitRoutes();
  }

  predicate Copies(to: map<string, Val>, from: map<string, Val>, keys: set<string>) {
    forall k :: k in keys ==> k in to && k in from && to[k] == from[k]
  }

  const AUDIT_KEYS :=
    {"decision", "reason", "rule_id", "rule_version", "chain_version", "event_id", "severity", "host", "name"}

  const TAIL_KEYS := {"ts", "decision", "reason", "rule_id", "rule_version", "event_id", "cef_ok", "syslog_ok"}

  lemma {:induction false} MetadataAt(node: string, e: Event, k: string)
    requires k in AUDIT_KEYS
    ensures k in Metadata(node, e) && Metadata(node, e)[k] == SsField(e, k) && k != "raw"
  {
  }

  lemma {:induction false} TailAt(lib: Library, node: string, e: Event, k: string)
    requires k in TAIL_KEYS
    ensures k in TailRecord(lib, node, e) && TailRecord(lib, node, e)[k] == SsField(e, k)
  {
  }

  lemma {:induction false} MetadataEnds(node: string, e: Event)
    ensures "raw" !in Metadata(node, e)
    ensures "@timestamp" in Metadata(node, e) && Metadata(node, e)["@timestamp"] == SsField(e, "ts")
    ensures "node" in Metadata(node, e) && Metadata(node, e)["node"] == Str(node)
  {
  }

  lemma {:induction false} HasKeys(lib: Library, record: map<string, Val>, v: Verdict, version: int, view: View, k: string)
    requires Tells(record, v, version) && Shows(lib, record, view) && (k in AUDIT_KEYS || k in TAIL_KEYS)
    ensures k in record
  {
  }

  lemma {:induction false} RecordHas(lib: Library, chain: Chain, version: int, e: Event, k: string)
    requires Sound(lib) && (k in AUDIT_KEYS || k in TAIL_KEYS)
    ensures k in RecordOf(lib, e, chain, version)
    ensures SsField(Marked(lib, chain, version, e), k) == RecordOf(lib, e, chain, version)[k]
  {
    RecordMeans(lib, chain, version, e);
    HasKeys(lib, RecordOf(lib, e, chain, version), Judge(lib, ViewOf(lib, e), chain), version, ViewOf(lib, e), k);
    MarkedField(lib, chain, version, e, k);
  }

  lemma {:induction false} RetainMarked(lib: Library, chain: Chain, version: int, e: Event)
    requires Sound(lib)
    ensures SsField(Marked(lib, chain, version, e), "retain") == Bool(Judge(lib, ViewOf(lib, e), chain).retain)
    ensures MessageText(lib, Marked(lib, chain, version, e)) == RawText(lib, e)
  {
    RecordMeans(lib, chain, version, e);
    MarkedField(lib, chain, version, e, "retain");
    MessageStays(e, Obj(RecordOf(lib, e, chain, version)));
  }

  lemma {:induction false} AuditShape(lib: Library, node: string, d: Event, retain: bool)
    requires SsField(d, "retain") == Bool(retain)
    ensures var record := AuditRecord(lib, node, d);
            && (forall k :: k in AUDIT_KEYS ==> k in record && record[k] == SsField(d, k))
            && ("raw" in record <==> retain) && (retain ==> record["raw"] == Str(MessageText(lib, d)))
  {
    MetadataEnds(node, d);
    forall k | k in AUDIT_KEYS
      ensures k in Metadata(node, d) && Metadata(node, d)[k] == SsField(d, k) && k != "raw"
    {
      MetadataAt(node, d, k);
    }
  }

  lemma {:induction false} AuditEnds(lib: Library, node: string, d: Event, retain: bool)
    requires SsField(d, "retain") == Bool(retain)
    ensures var record := AuditRecord(lib, node, d);
            && "node" in record && record["node"] == Str(node)
            && "@timestamp" in record && record["@timestamp"] == SsField(d, "ts")
            && record.Keys == AUDIT_KEYS + {"@timestamp", "node"} + if retain then {"raw"} else {}
  {
    MetadataEnds(node, d);
  }

  /** The audit record copies decision, rule and summary from what was recorded, has the time and the node,
      carries the raw text exactly when the deciding rule asked for it, and has nothing else. */
  lemma {:induction false} AuditMeans(lib: Library, node: string, chain: Chain, version: int, e: Event)
    requires Sound(lib)
    ensures var record, verdict := AuditRecord(lib, node, Marked(lib, chain, version, e)), Judge(lib, ViewOf(lib, e), chain);
            && Copies(record, RecordOf(lib, e, chain, version), AUDIT_KEYS)
            && ("raw" in record <==> verdict.retain) && (verdict.retain ==> record["raw"] == Str(RawText(lib, e)))
            && "node" in record && record["node"] == Str(node)
            && "@timestamp" in record && record["@timestamp"] == Str(Textual(lib, lib.now))
            && record.Keys == AUDIT_KEYS + {"@timestamp", "node"} + if verdict.retain then {"raw"} else {}
  {
    RecordHas(lib, chain, version, e, "ts");
    RecordMeans(lib, chain, version, e);
    RetainMarked(lib, chain, version, e);
    AuditEnds(lib, node, Marked(lib, chain, version, e), Judge(lib, ViewOf(lib, e), chain).retain);
    AuditShape(lib, node, Marked(lib, chain, version, e), Judge(lib, ViewOf(lib, e), chain).retain);
    forall k | k in AUDIT_KEYS
      ensures k in RecordOf(lib, e, chain, version)
              && SsField(Marked(lib, chain, version, e), k) == RecordOf(lib, e, chain, version)[k]
    {
      RecordHas(lib, chain, version, e, k);
    }
  }

  /** The nested fields are the summary that was recorded. */
  predicate TailFields(record: map<string, Val>, ss: map<string, Val>) {
    && "severity" in ss && "host" in ss && "name" in ss && "fields" in record && record["fields"].Obj?
    && var fields := record["fields"].fields;
       && fields.Keys == {"severity", "filterhostname", "name"}
       && fields["severity"] == ss["severity"] && fields["filterhostname"] == ss["host"] && fields["name"] == ss["name"]
  }

  lemma {:induction false} TailEnds(lib: Library, node: string, d: Event)
    ensures var record := TailRecord(lib, node, d);
            && "node" in record && record["node"] == Str(node)
            && record.Keys == TAIL_KEYS + {"node", "fields", "raw"}
            && "fields" in record
            && record["fields"] == Obj(map["severity" := SsField(d, "severity"), "filterhostname" := SsField(d, "host"),
                                           "name" := SsField(d, "name")])
  {
  }

  lemma {:induction false} TailSummary(lib: Library, node: string, chain: Chain, version: int, e: Event)
    requires Sound(lib)
    ensures TailFields(TailRecord(lib, node, Marked(lib, chain, version, e)), RecordOf(lib, e, chain, version))
  {
    var d, ss := Marked(lib, chain, version, e), RecordOf(lib, e, chain, version);
    RecordHas(lib, chain, version, e, "severity");
    RecordHas(lib, chain, version, e, "host");
    RecordHas(lib, chain, version, e, "name");
    FieldsTold(lib, node, d, ss);
  }

  lemma {:induction false} FieldsTold(lib: Library, node: string, d: Event, ss: map<string, Val>)
    requires "severity" in ss && "host" in ss && "name" in ss
    requires SsField(d, "severity") == ss["severity"] && SsField(d, "host") == ss["host"] && SsField(d, "name") == ss["name"]
    ensures TailFields(TailRecord(lib, node, d), ss)
  {
    TailEnds(lib, node, d);
  }

  lemma {:induction false} TailCopies(lib: Library, node: string, chain: Chain, version: int, e: Event)
    requires Sound(lib)
    ensures Copies(TailRecord(lib, node, Marked(lib, chain, version, e)), RecordOf(lib, e, chain, version), TAIL_KEYS)
  {
    forall k | k in TAIL_KEYS
      ensures k in TailRecord(lib, node, Marked(lib, chain, version, e))
              && k in RecordOf(lib, e, chain, version)
              && TailRecord(lib, node, Marked(lib, chain, version, e))[k] == RecordOf(lib, e, chain, version)[k]
    {
      RecordHas(lib, chain, version, e, k);
      TailAt(lib, node, Marked(lib, chain, version, e), k);
    }
  }

  /** The live-view record copies decision, rule and parser flags, nests the summary, names the node,
      always carries the raw text, and has nothing else. */
  lemma {:induction false} TailMeans(lib: Library, node: string, chain: Chain, version: int, e: Event)
    requires Sound(lib)
    ensures var record := TailRecord(lib, node, Marked(lib, chain, version, e));
            && Copies(record, RecordOf(lib, e, chain, version), TAIL_KEYS)
            && TailFields(record, RecordOf(lib, e, chain, version))
            && "raw" in record && record["raw"] == Str(RawText(lib, e))
            && "node" in record && record["node"] == Str(node)
            && record.Keys == TAIL_KEYS + {"node", "fields", "raw"}
  {
    TailCopies(lib, node, chain, version, e);
    TailSummary(lib, node, chain, version, e);
    TailEnds(lib, node, Marked(lib, chain, version, e));
    TailRaw(lib, node, Marked(lib, chain, version, e));
    RetainMarked(lib, chain, version, e);
  }

  lemma {:induction false} TailRaw(lib: Library, node: string, d: Event)
    ensures "raw" in TailRecord(lib, node, d) && TailRecord(lib, node, d)["raw"] == Str(MessageText(lib, d))
  {
  }

  /** What is emitted to ELK is the event's own message, whatever was recorded beside it. */
  lemma {:induction false} MessageKept(lib: Library, chain: Chain, version: int, e: Event)
    requires Sound(lib)
    ensures var d := Marked(lib, chain, version, e);
            ("message" in d <==> "message" in e) && ("message" in e ==> d["message"] == e["message"])
  {
    MessageStays(e, Obj(RecordOf(lib, e, chain, version)));
  }

  // ---------------------------------------------------------------- a stream

  /** What arrives at a component over a stream; `chosen` is what the sampler does with each event. */
  function Arrivals(cfg: Config, id: Id, es: seq<Event>, chosen: seq<bool>): seq<Event>
    requires Wired(cfg) && |es| == |chosen|
    decreases es
  {
    if es == [] then [] else Received(cfg, id, es[0], chosen[0]) + Arrivals(cfg, id, es[1..], chosen[1..])
  }

  /** The kept events as they leave the decide step. */
  ghost function Kept(lib: Library, chain: Chain, version: int, es: seq<Event>): seq<Event>
    requires Sound(lib)
  {
    if es == [] then []
    else (if Dropped(lib, chain, es[0]) then [] else [Marked(lib, chain, version, es[0])])
         + Kept(lib, chain, version, es[1..])
  }

  /** The audit records of the dropped events. */
  ghost function DropRecords(lib: Library, node: string, chain: Chain, version: int, es: seq<Event>): seq<Event>
    requires Sound(lib)
  {
    if es == [] then []
    else (if Dropped(lib, chain, es[0]) then [AuditRecord(lib, node, Marked(lib, chain, version, es[0]))] else [])
         + DropRecords(lib, node, chain, version, es[1..])
  }

  function Drops(es: seq<Event>): nat {
    if es == [] then 0
    else (if "decision" in es[0] && es[0]["decision"] == Str("drop") then 1 else 0) + Drops(es[1..])
  }

  lemma {:induction false} DropsConcat(a: seq<Event>, b: seq<Event>)
    ensures Drops(a + b) == Drops(a) + Drops(b)
  {
    if a == [] {
      assert a + b == b;
    } else {
      assert (a + b)[0] == a[0] && (a + b)[1..] == a[1..] + b;
      DropsConcat(a[1..], b);
    }
  }

  lemma {:induction false} TailDecision(lib: Library, node: string, d: Event)
    ensures "decision" in TailRecord(lib, node, d) && TailRecord(lib, node, d)["decision"] == DecisionVal(d)
  {
  }

  lemma {:induction false} DropsOne(r: Event)
    requires "decision" in r
    ensures Drops([r]) == if r["decision"] == Str("drop") then 1 else 0
    ensures Drops([]) == 0
  {
    var one := [r];
    assert one[1..] == [];
  }

  lemma {:induction false} TailDrops(lib: Library, node: string, chain: Chain, version: int, e: Event)
    requires Sound(lib)
    ensures Drops([TailRecord(lib, node, Marked(lib, chain, version, e))]) == if Dropped(lib, chain, e) then 1 else 0
    ensures Drops([]) == 0
  {
    DropDecided(lib, chain, version, e);
    TailDecision(lib, node, Marked(lib, chain, version, e));
    DropsOne(TailRecord(lib, node, Marked(lib, chain, version, e)));
  }

  /** ELK has exactly the kept events, the drop audit exactly one record for each dropped event, both in
      order, and the live view one record for each drop. */
  ghost predicate Conserved(lib: Library, node: string, chain: Chain, version: int, cfg: Config, es: seq<Event>,
                            chosen: seq<bool>)
    requires Sound(lib) && Wired(cfg) && |es| == |chosen|
  {
    var kept, drops := Kept(lib, chain, version, es), DropRecords(lib, node, chain, version, es);
    && Arrivals(cfg, Elk, es, chosen) == kept
    && Arrivals(cfg, DropAudit, es, chosen) == drops
    && |kept| + |drops| == |es|
    && Drops(Arrivals(cfg, ControlPlaneTail, es, chosen)) == |drops|
  }

  lemma {:induction false} TailStep(lib: Library, node: string, chain: Chain, version: int, cfg: Config,
                                    es: seq<Event>, chosen: seq<bool>)
    requires Sound(lib) && Wired(cfg) && |es| == |chosen| && es != []
    requires Routed(lib, node, chain, version, cfg, es[0], chosen[0])
    ensures Drops(Arrivals(cfg, ControlPlaneTail, es, chosen)) ==
            (if Dropped(lib, chain, es[0]) then 1 else 0) + Drops(Arrivals(cfg, ControlPlaneTail, es[1..], chosen[1..]))
  {
    FirstDrops(lib, node, chain, version, es[0], chosen[0], Received(cfg, ControlPlaneTail, es[0], chosen[0]));
    DropsArrive(cfg, es, chosen);
  }

  lemma {:induction false} DropsArrive(cfg: Config, es: seq<Event>, chosen: seq<bool>)
    requires Wired(cfg) && |es| == |chosen| && es != []
    ensures Drops(Arrivals(cfg, ControlPlaneTail, es, chosen)) ==
            Drops(Received(cfg, ControlPlaneTail, es[0], chosen[0]))
            + Drops(Arrivals(cfg, ControlPlaneTail, es[1..], chosen[1..]))
  {
    DropsConcat(Received(cfg, ControlPlaneTail, es[0], chosen[0]), Arrivals(cfg, ControlPlaneTail, es[1..], chosen[1..]));
  }

  lemma {:induction false} FirstDrops(lib: Library, node: string, chain: Chain, version: int, e: Event, chosen: bool,
                                      first: seq<Event>)
    requires Sound(lib)
    requires first == if Dropped(lib, chain, e) || chosen then [TailRecord(lib, node, Marked(lib, chain, version, e))]
                      else []
    ensures Drops(first) == if Dropped(lib, chain, e) then 1 else 0
  {
    TailDrops(lib, node, chain, version, e);
  }

  lemma {:induction false} StreamStep(lib: Library, node: string, chain: Chain, version: int, cfg: Config,
                                      es: seq<Event>, chosen: seq<bool>)
    requires Sound(lib) && Wired(cfg) && |es| == |chosen| && es != []
    requires Routed(lib, node, chain, version, cfg, es[0], chosen[0])
    requires Conserved(lib, node, chain, version, cfg, es[1..], chosen[1..])
    ensures Conserved(lib, node, chain, version, cfg, es, chosen)
  {
    TailStep(lib, node, chain, version, cfg, es, chosen);
  }

  lemma {:induction false} StreamRouted(lib: Library, node: string, chain: Chain, version: int, cfg: Config,
                                        es: seq<Event>, chosen: seq<bool>)
    requires Sound(lib) && Wired(cfg) && |es| == |chosen|
    requires forall e, c :: Routed(lib, node, chain, version, cfg, e, c)
    ensures Conserved(lib, node, chain, version, cfg, es, chosen)
    decreases es
  {
    if es != [] {
      StreamRouted(lib, node, chain, version, cfg, es[1..], chosen[1..]);
      StreamStep(lib, node, chain, version, cfg, es, chosen);
    }
  }

  /** Conservation for every stream of events under the compiled program. */
  lemma {:induction false} StreamConserved(lib: Library, node: string, chain: Chain, version: int,
                                           program: seq<Stmt>, es: seq<Event>, chosen: seq<bool>)
    requires Runs(lib, chain, version, program) && |es| == |chosen|
    ensures Wired(Deployed(lib, node, program))
    ensures Conserved(lib, node, chain, version, Deployed(lib, node, program), es, chosen)
  {
    EventRouted(lib, node, chain, version, program, map[], false);
    forall e, c ensures Routed(lib, node, chain, version, Deployed(lib, node, program), e, c) {
      EventRouted(lib, node, chain, version, program, e, c);
    }
    StreamRouted(lib, node, chain, version, Deployed(lib, node, program), es, chosen);
  }

  // ---------------------------------------------------------------- what ELK reads

  /** The text codec writes the message of an event and nothing else; `text` is how it writes a value. */
  function Line(text: Val -> string, d: Event): string {
    if "message" in d then text(d["message"]) else ""
  }

  function Lines(text: Val -> string, es: seq<Event>): seq<string> {
    if es == [] then [] else [Line(text, es[0])] + Lines(text, es[1..])
  }

  /** The events of the stream itself, as they came in, that are not dropped. */
  ghost function KeptInput(lib: Library, chain: Chain, es: seq<Event>): seq<Event>
    requires Sound(lib)
  {
    if es == [] then []
    else (if Dropped(lib, chain, es[0]) then [] else [es[0]]) + KeptInput(lib, chain, es[1..])
  }

  lemma {:induction false} LinesCons(text: Val -> string, d: Event, es: seq<Event>)
    ensures Lines(text, [d] + es) == [Line(text, d)] + Lines(text, es)
    ensures [] + es == es
  {
    assert ([d] + es)[1..] == es;
  }

  lemma {:induction false} LinesKept(text: Val -> string, lib: Library, chain: Chain, version: int, es: seq<Event>)
    requires Sound(lib)
    ensures Lines(text, Kept(lib, chain, version, es)) == Lines(text, KeptInput(lib, chain, es))
  {
    if es != [] {
      LinesKept(text, lib, chain, version, es[1..]);
      LinesCons(text, Marked(lib, chain, version, es[0]), Kept(lib, chain, version, es[1..]));
      LinesCons(text, es[0], KeptInput(lib, chain, es[1..]));
      LineKept(text, lib, chain, version, es[0]);
    }
  }

  lemma {:induction false} LineKept(text: Val -> string, lib: Library, chain: Chain, version: int, e: Event)
    requires Sound(lib)
    ensures Line(text, Marked(lib, chain, version, e)) == Line(text, e)
  {
    MessageKept(lib, chain, version, e);
  }

  /** ELK reads the messages of the kept events as they came in, in order and verbatim: no line is added,
      lost or rewritten, and nothing of what was recorded beside the message is in it. */
  lemma {:induction false} ElkVerbatim(lib: Library, node: string, chain: Chain, version: int, program: seq<Stmt>,
                                       es: seq<Event>, chosen: seq<bool>, text: Val -> string)
    requires Runs(lib, chain, version, program) && |es| == |chosen|
    ensures Wired(Deployed(lib, node, program))
    ensures Lines(text, Arrivals(Deployed(lib, node, program), Elk, es, chosen)) ==
            Lines(text, KeptInput(lib, chain, es))
  {
    StreamConserved(lib, node, chain, version, program, es, chosen);
    LinesKept(text, lib, chain, version, es);
  }

  // ---------------------------------------------------------------- the wiring that counted twice

  /** The earlier topology: a filter for drops feeding the live view beside the sampler. */
  ghost function WithDropFilter(lib: Library, node: string, decide: Event -> Event): Config {
    BuildConfig(lib, node, decide, SplitRoutes())
      [DropFilter := Filter([Port(Decide, Plain)], BuildConfig(lib, node, decide, SplitRoutes())[TailSample].exclude)]
      [Tail := Remap([Port(TailSample, Plain), Port(DropFilter, Plain)], e => TailRecord(lib, node, e))]
  }

  lemma {:induction false} FilterUpstream(lib: Library, node: string, decide: Event -> Event)
    ensures Upstream(WithDropFilter(lib, node, decide), decide)
  {
    BuiltDecides(lib, node, decide, SplitRoutes());
  }

  lemma {:induction false} TwoFeeds(cfg: Config, decide: Event -> Event,
                                    exclude: Event -> bool, f: Event -> Event, e: Event, chosen: bool)
    requires Upstream(cfg, decide) && {TailSample, DropFilter, Tail, ControlPlaneTail} <= cfg.Keys
    requires cfg[TailSample] == Sampler([Port(Decide, Plain)], exclude)
    requires cfg[DropFilter] == Filter([Port(Decide, Plain)], exclude)
    requires cfg[Tail] == Remap([Port(TailSample, Plain), Port(DropFilter, Plain)], f)
    requires cfg[ControlPlaneTail] == Sink([Port(Tail, Plain)])
    ensures var r := f(decide(e));
            Received(cfg, ControlPlaneTail, e, chosen) ==
            if exclude(decide(e)) then [r, r] else if chosen then [r] else []
  {
    DecidedSent(cfg, decide, TailSample, e, chosen);
    DecidedSent(cfg, decide, DropFilter, e, chosen);
    ThroughTwo(cfg, Tail, Port(TailSample, Plain), Port(DropFilter, Plain), e, chosen);
    ThroughOne(cfg, ControlPlaneTail, Port(Tail, Plain), e, chosen);
    EmitOne(cfg[TailSample], Plain, decide(e), chosen);
    EmitOne(cfg[DropFilter], Plain, decide(e), chosen);
    EmitTwo(cfg[Tail], Plain, decide(e), chosen);
  }

  /** Under it every drop is recorded twice, and nothing else is. */
  lemma {:induction false} FilterCountsTwice(lib: Library, node: string, decide: Event -> Event, e: Event, chosen: bool)
    ensures Upstream(WithDropFilter(lib, node, decide), decide)
    ensures var r := TailRecord(lib, node, decide(e));
            Received(WithDropFilter(lib, node, decide), ControlPlaneTail, e, chosen) ==
            if IsDrop(decide(e)) then [r, r] else if chosen then [r] else []
  {
    FilterUpstream(lib, node, decide);
    var cfg := WithDropFilter(lib, node, decide);
    TwoFeeds(cfg, decide, cfg[TailSample].exclude, cfg[Tail].f, e, chosen);
  }

  lemma {:induction false} EmitTwo(c: Component, out: Out, e: Event, chosen: bool)
    ensures EmitAll(c, out, [e, e], chosen) == Emit(c, out, e, chosen) + Emit(c, out, e, chosen)
    ensures EmitAll(c, out, [e], chosen) == Emit(c, out, e, chosen) && EmitAll(c, out, [], chosen) == []
  {
    EmitOne(c, out, e, chosen);
    assert [e, e][1..] == [e];
  }
}
