/**
  The incremental report of Kubernetes resources, as functions on values: what one increment,
  one collection, one answer and one sweep do to the identifier cache, and what a server that
  applies the messages in order then holds.

  The digest of a resource is a parameter `h`, so every statement holds for every digest function.
*/
module ReportModel {
  import opened Wrappers

  /** One listed object, before service links are added to it. `detail` is the rest of the payload. */
  datatype Resource = Resource(uid: string, name: string, namespace: string, labels: map<string, string>, detail: string)

  type Digest = Resource -> string

  /** One cached identifier. */
  datatype Entry = Entry(uid: string, cid: string, md5: string, curr: bool, name: string)

  type Cache = map<string, Entry>

  /** A reported item: everything, the short form of an unchanged one, or the notice that it is gone. */
  datatype Message =
    | Full(resource: Resource, link: string)
    | Stub(uid: string, cid: string, link: string)
    | Tombstone(uid: string, cid: string)

  function Target(m: Message): string {
    if m.Full? then m.resource.uid else m.uid
  }

  /** A service as listed. A missing selector never selects a pod; an empty one selects every pod. */
  datatype Service = Service(uid: string, namespace: string, selector: Option<map<string, string>>)

  /** The answer to a report. A transport error and a refusal are both `Failed`. */
  datatype Reply = Failed | NotAMap | Answer(cids: map<string, string>)

  // ----- increment and collection

  function Increment(h: Digest, c: Cache, r: Resource): (Cache, Message) {
    if r.uid in c then
      var v := c[r.uid];
      if v.md5 == h(r) && v.cid != "" then
        (c[r.uid := v.(curr := true)], Stub(v.uid, v.cid, ""))
      else
        (c[r.uid := v.(md5 := h(r), curr := true)], Full(r, ""))
    else
      (c[r.uid := Entry(r.uid, "", h(r), true, r.name)], Full(r, ""))
  }

  /** A stub has neither namespace nor labels. */
  predicate Selects(s: Service, m: Message) {
    s.selector.Some? &&
    match m
    case Full(r, _) =>
      s.namespace == r.namespace &&
      forall k :: k in s.selector.value ==> k in r.labels && r.labels[k] == s.selector.value[k]
    case _ => s.namespace == "" && s.selector.value == map[]
  }

  function WithLink(m: Message, uid: string): Message
    requires !m.Tombstone?
  {
    m.(link := uid)
  }

  /** The effect of running every selector on the message, in listing order. */
  function Linked(services: seq<Service>, m: Message): (r: Message)
    requires !m.Tombstone?
    ensures r.Full? == m.Full? && r.Stub? == m.Stub? && Target(r) == Target(m)
    ensures m.Full? ==> r.resource == m.resource
    ensures m.Stub? ==> r.cid == m.cid
  {
    if services == [] then m
    else
      var last := services[|services| - 1];
      var rest := Linked(services[..|services| - 1], m);
      if Selects(last, rest) then WithLink(rest, last.uid) else rest
  }

  function Collect(h: Digest, services: seq<Service>, c: Cache, listing: seq<Resource>): (r: (Cache, seq<Message>))
    ensures |r.1| == |listing|
    ensures forall i :: 0 <= i < |listing| ==> !r.1[i].Tombstone?
  {
    if listing == [] then (c, [])
    else
      var (c1, batch) := Collect(h, services, c, listing[..|listing| - 1]);
      var (c2, m) := Increment(h, c1, listing[|listing| - 1]);
      (c2, batch + [Linked(services, m)])
  }

  // ----- answers and the sweep

  function RecordCids(c: Cache, cids: map<string, string>): Cache {
    map u | u in c :: if u in cids then c[u].(cid := cids[u]) else c[u]
  }

  /** The cache after the report of existing resources; nothing is sent for an empty batch. */
  function AfterReport(c: Cache, batch: seq<Message>, reply: Reply): Cache {
    if batch == [] then c
    else match reply
      case Answer(cids) => RecordCids(c, cids)
      case _ => map[]
  }

  function Swept(c: Cache): Cache {
    map u | u in c && c[u].curr :: c[u].(curr := false)
  }

  function Vanished(c: Cache): set<Message> {
    set u | u in c && !c[u].curr && c[u].cid != "" :: Tombstone(c[u].uid, c[u].cid)
  }

  /** The sweep walks a map, so the tombstones come in any order, each once. */
  predicate SweepBatch(c: Cache, tombs: seq<Message>) {
    && (forall i, j :: 0 <= i < j < |tombs| ==> tombs[i] != tombs[j])
    && (set m | m in tombs) == Vanished(c)
  }

  /** The cache after the report of vanished resources. */
  function AfterTombstones(c: Cache, tombs: seq<Message>, reply: Reply): Cache {
    if tombs != [] && reply.Failed? then map[] else c
  }

  // ----- the server

  /** What the server holds for a uid: the digest of the payload it last received, and its service link. */
  datatype Held = Held(digest: string, link: string)

  type Server = map<string, Held>

  /** A stub says that the payload did not change; a link that it carries is taken over. */
  function Apply1(h: Digest, s: Server, m: Message): Server {
    match m
    case Full(r, link) => s[r.uid := Held(h(r), link)]
    case Stub(uid, _, link) => if link != "" && uid in s then s[uid := s[uid].(link := link)] else s
    case Tombstone(uid, _) => s - {uid}
  }

  function Apply(h: Digest, s: Server, batch: seq<Message>): Server {
    if batch == [] then s
    else Apply1(h, Apply(h, s, batch[..|batch| - 1]), batch[|batch| - 1])
  }

  // ----- full reporting, the reference

  function Uids(listing: seq<Resource>): set<string> {
    set r | r in listing :: r.uid
  }

  /** What a server would hold that is sent the whole listing and nothing else. */
  function FullReport(h: Digest, listing: seq<Resource>): map<string, string> {
    if listing == [] then map[]
    else
      var r := listing[|listing| - 1];
      FullReport(h, listing[..|listing| - 1])[r.uid := h(r)]
  }

  function Digests(s: Server): map<string, string> {
    map u | u in s :: s[u].digest
  }

  /** The uid of the last service in listing order that selects the pod. */
  function ServiceFor(services: seq<Service>, r: Resource): string {
    if services == [] then ""
    else
      var last := services[|services| - 1];
      if Selects(last, Full(r, "")) then last.uid else ServiceFor(services[..|services| - 1], r)
  }

  // ----- one round and whole runs

  /**
    One round as the environment plays it: the listing and services it shows, the two answers it gives,
    the order of the tombstones, and the state an unsuccessful report leaves the server in.
  */
  datatype Round = Round(listing: seq<Resource>, services: seq<Service>,
                         reply: Reply, lostTo: Server,
                         tombs: seq<Message>, tombReply: Reply, tombsLostTo: Server)

  datatype System = System(cache: Cache, server: Server)

  function Sent(h: Digest, sys: System, rd: Round): (batch: seq<Message>)
    ensures |batch| == |rd.listing|
  {
    Collect(h, rd.services, sys.cache, rd.listing).1
  }

  /** The system after the report of existing resources. */
  function Middle(h: Digest, sys: System, rd: Round): System {
    var (c, batch) := Collect(h, rd.services, sys.cache, rd.listing);
    System(AfterReport(c, batch, rd.reply),
           if batch == [] then sys.server
           else if rd.reply.Answer? then Apply(h, sys.server, batch)
           else rd.lostTo)
  }

  /** The system after the whole round. */
  function Next(h: Digest, sys: System, rd: Round): System {
    var mid := Middle(h, sys, rd);
    System(AfterTombstones(Swept(mid.cache), rd.tombs, rd.tombReply),
           if rd.tombs == [] then mid.server
           else if rd.tombReply.Failed? then rd.tombsLostTo
           else Apply(h, mid.server, rd.tombs))
  }

  predicate Playable(h: Digest, sys: System, rd: Round) {
    SweepBatch(Middle(h, sys, rd).cache, rd.tombs)
  }

  /** The agent starts with an empty cache; nothing is assumed of the server. */
  predicate Run(h: Digest, states: seq<System>, rounds: seq<Round>) {
    && |states| == |rounds| + 1
    && states[0].cache == map[]
    && forall i :: 0 <= i < |rounds| ==> Playable(h, states[i], rounds[i]) && states[i + 1] == Next(h, states[i], rounds[i])
  }

  /** The report of existing resources succeeded, or there was nothing to report. */
  predicate ReportOk(rd: Round) {
    rd.listing == [] || rd.reply.Answer?
  }

  predicate TombstonesOk(rd: Round) {
    rd.tombs == [] || !rd.tombReply.Failed?
  }

  predicate RoundOk(rd: Round) {
    ReportOk(rd) && TombstonesOk(rd)
  }
}
