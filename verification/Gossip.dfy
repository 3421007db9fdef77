/** Every member telling the group where it is, and answering news by telling it again
    (crates/distlib-consensus/src/gossip.rs): the cascade dies out. */
module Gossip {
  import opened Common
  import opened Sums
  import opened Membership
  import opened Directories

  /** One node: what it holds, how often its directory has changed, up to which of those changes it has
      answered, how often it has answered, and what it said last. */
  datatype Node = Node(held: Held, version: nat, noticed: nat, answers: nat, said: Option<SignedAddress>)

  const QUIET := Node(NOTHING, 0, 0, 0, None)

  /** The group, and everything ever broadcast in it: any of it may arrive anywhere, at any time, in any
      order, any number of times, or never. */
  datatype Network = Network(nodes: map<MemberId, Node>, sent: set<SignedAddress>, tally: Tally)

  /** How many statements have been news to whoever heard them, and how many announcements were made in
      answer to news. Nothing decides by it. */
  datatype Tally = Tally(news: nat, answers: nat)

  /** Where each node is: it does not move. */
  type Places = map<MemberId, NodeAddr>

  datatype Step =
    | Announce(node: MemberId, position: nat)
    | Answer(node: MemberId, position: nat)
    | Hear(node: MemberId, said: SignedAddress)

  /** What a node at `addr` broadcasts: nothing while it does not know where it is. */
  function Statement(node: MemberId, addr: NodeAddr, position: nat): Option<SignedAddress> {
    if IsEmpty(addr) then None else Some(SignedAddress(node, addr, position, true))
  }

  function Broadcast(sent: set<SignedAddress>, statement: Option<SignedAddress>): set<SignedAddress> {
    if statement.None? then sent else sent + {statement.value}
  }

  function Spoken(node: Node, statement: Option<SignedAddress>): Node {
    if statement.None? then node else node.(said := statement)
  }

  function Heard(node: Node, said: SignedAddress, read: ReadUrl): Node {
    var (held, news) := Learned(node.held, said, read);
    node.(held := held, version := if news == Ok(true) then node.version + 1 else node.version)
  }

  predicate IsNews(node: Node, said: SignedAddress, read: ReadUrl) {
    Learned(node.held, said, read).1 == Ok(true)
  }

  /** Whether a step is somebody hearing news. */
  predicate BringsNews(net: Network, read: ReadUrl, step: Step) {
    step.Hear? && step.node in net.nodes && IsNews(net.nodes[step.node], step.said, read)
  }

  ghost predicate Takes(net: Network, places: Places, read: ReadUrl, step: Step, net': Network) {
    && step.node in net.nodes && step.node in places
    && var node := net.nodes[step.node];
    match step
    case Announce(id, position) =>
      var statement := Statement(id, places[id], position);
      net' == Network(net.nodes[id := Spoken(node, statement)], Broadcast(net.sent, statement), net.tally)
    case Answer(id, position) =>
      var statement := Statement(id, places[id], position);
      && node.noticed != node.version
      && net' == Network(net.nodes[id := Spoken(node, statement).(noticed := node.version,
        answers := node.answers + 1)],
                         Broadcast(net.sent, statement), net.tally.(answers := net.tally.answers + 1))
    case Hear(id, said) =>
      && said in net.sent
      && net' == Network(net.nodes[id := Heard(node, said, read)], net.sent,
                         net.tally.(news := net.tally.news + if IsNews(node, said, read) then 1 else 0))
  }

  function Initial(places: Places): Network {
    Network(map id | id in places :: QUIET, {}, Tally(0, 0))
  }

  ghost predicate IsRun(run: seq<Network>, places: Places, read: ReadUrl, steps: seq<Step>) {
    && |run| == |steps| + 1 && run[0] == Initial(places)
    && forall k | 0 <= k < |steps| :: TakesAt(run, places, read, steps, k)
  }

  ghost predicate TakesAt(run: seq<Network>, places: Places, read: ReadUrl, steps: seq<Step>, k: nat)
    requires k < |steps| < |run|
  {
    Takes(run[k], places, read, steps[k], run[k + 1])
  }

  /** A node has heard of each member once, where that member is, and answers no more often than that. */
  ghost predicate SoundNode(node: Node, places: Places, read: ReadUrl) {
    && node.answers <= node.noticed <= node.version == |node.held.lookup|
    && node.held.lookup.Keys <= places.Keys
    && forall m | m in node.held.lookup :: Some(node.held.lookup[m]) == ToEndpointAddr(places[m], m, read)
  }

  ghost predicate Sound(net: Network, places: Places, read: ReadUrl) {
    net.nodes.Keys == places.Keys && SoundNodes(net.nodes, places, read) && SoundWords(net.sent, places)
  }

  ghost predicate SoundNodes(nodes: map<MemberId, Node>, places: Places, read: ReadUrl) {
    forall id | id in nodes :: SoundNode(nodes[id], places, read)
  }

  /** Everything said is said by a node of the group, of where it is. */
  ghost predicate SoundWords(sent: set<SignedAddress>, places: Places) {
    forall said | said in sent :: IsTrue(said, places)
  }

  predicate IsTrue(said: SignedAddress, places: Places) {
    said.member in places && said.addr == places[said.member]
  }

  lemma HeardIsSound(node: Node, places: Places, read: ReadUrl, said: SignedAddress)
    requires SoundNode(node, places, read) && IsTrue(said, places)
    ensures SoundNode(Heard(node, said, read), places, read)
  {
    var lookup := node.held.lookup;
    if IsNews(node, said, read) {
      assert said.member !in lookup;
      var endpoint := ToEndpointAddr(said.addr, said.member, read).value;
      assert lookup[said.member := endpoint].Keys == lookup.Keys + {said.member};
    }
  }

  lemma NewsIsOfANewcomer(node: Node, places: Places, read: ReadUrl, said: SignedAddress)
    requires SoundNode(node, places, read) && IsTrue(said, places) && IsNews(node, said, read)
    ensures said.member !in node.held.lookup
  {
  }

  lemma OneNodeChanged(net: Network, places: Places, read: ReadUrl, id: MemberId, node: Node,
      said: Option<SignedAddress>, tally: Tally)
    requires Sound(net, places, read) && id in net.nodes && SoundNode(node, places, read)
    requires said.Some? ==> IsTrue(said.value, places)
    ensures Sound(Network(net.nodes[id := node], Broadcast(net.sent, said), tally), places, read)
  {
    OneNodeOfAll(net.nodes, places, read, id, node);
    OneMoreWord(net.sent, places, said);
    assert net.nodes[id := node].Keys == net.nodes.Keys;
  }

  lemma OneNodeOfAll(nodes: map<MemberId, Node>, places: Places, read: ReadUrl, id: MemberId, node: Node)
    requires SoundNodes(nodes, places, read) && SoundNode(node, places, read)
    ensures SoundNodes(nodes[id := node], places, read)
  {
    var after := nodes[id := node];
    forall other | other in after ensures SoundNode(after[other], places, read) {
      if other != id {
        assert after[other] == nodes[other];
      }
    }
  }

  lemma OneMoreWord(sent: set<SignedAddress>, places: Places, said: Option<SignedAddress>)
    requires SoundWords(sent, places) && (said.Some? ==> IsTrue(said.value, places))
    ensures SoundWords(Broadcast(sent, said), places)
  {
  }

  lemma AnnounceIsSound(net: Network, places: Places, read: ReadUrl, id: MemberId, position: nat, noticed: nat,
      answers: nat, tally: Tally)
    requires Sound(net, places, read) && id in net.nodes && id in places
    requires answers <= noticed <= net.nodes[id].version
    ensures var statement := Statement(id, places[id], position);
      Sound(Network(net.nodes[id := Spoken(net.nodes[id], statement).(noticed := noticed, answers := answers)],
        Broadcast(net.sent, statement), tally), places, read)
  {
    assert SoundNode(net.nodes[id], places, read);
    var statement := Statement(id, places[id], position);
    OneNodeChanged(net, places, read, id,
      Spoken(net.nodes[id], statement).(noticed := noticed, answers := answers), statement, tally);
  }

  lemma HearIsSound(net: Network, places: Places, read: ReadUrl, id: MemberId, said: SignedAddress, tally: Tally)
    requires Sound(net, places, read) && id in net.nodes && said in net.sent
    ensures Sound(Network(net.nodes[id := Heard(net.nodes[id], said, read)], net.sent, tally), places, read)
  {
    HeardIsSound(net.nodes[id], places, read, said);
    OneNodeChanged(net, places, read, id, Heard(net.nodes[id], said, read), None, tally);
  }

  lemma SpokenIsSound(net: Network, places: Places, read: ReadUrl, step: Step, net': Network)
    requires Sound(net, places, read) && Takes(net, places, read, step, net') && step.Announce?
    ensures Sound(net', places, read)
  {
    var node := net.nodes[step.node];
    assert SoundNode(node, places, read);
    AnnounceIsSound(net, places, read, step.node, step.position, node.noticed, node.answers, net'.tally);
  }

  lemma AnsweredIsSound(net: Network, places: Places, read: ReadUrl, step: Step, net': Network)
    requires Sound(net, places, read) && Takes(net, places, read, step, net') && step.Answer?
    ensures Sound(net', places, read)
  {
    var node := net.nodes[step.node];
    assert SoundNode(node, places, read);
    AnnounceIsSound(net, places, read, step.node, step.position, node.version, node.answers + 1, net'.tally);
  }

  lemma StepIsSound(net: Network, places: Places, read: ReadUrl, step: Step, net': Network)
    requires Sound(net, places, read) && Takes(net, places, read, step, net')
    ensures Sound(net', places, read)
  {
    match step
    case Announce(_, _) => SpokenIsSound(net, places, read, step, net');
    case Answer(_, _) => AnsweredIsSound(net, places, read, step, net');
    case Hear(id, said) => HearIsSound(net, places, read, id, said, net'.tally);
  }

  function VersionOf(id: MemberId, node: Node): nat {
    node.version
  }

  function AnswersOf(id: MemberId, node: Node): nat {
    node.answers
  }

  lemma SumChanged(nodes: map<MemberId, Node>, f: (nat, Node) -> nat, id: MemberId, node: Node)
    requires id in nodes
    ensures Sum(nodes[id := node], f) == Sum(nodes, f) - f(id, nodes[id]) + f(id, node)
  {
    SumWithout(nodes, f, id);
    SumWithout(nodes[id := node], f, id);
    assert nodes[id := node] - {id} == nodes - {id};
  }

  lemma {:induction false} SumIsZero(nodes: map<MemberId, Node>, f: (nat, Node) -> nat)
    requires forall id | id in nodes :: f(id, nodes[id]) == 0
    ensures Sum(nodes, f) == 0
    decreases |nodes|
  {
    if nodes != map[] {
      var id := Least(nodes.Keys);
      assert (nodes - {id}).Keys == nodes.Keys - {id};
      SumIsZero(nodes - {id}, f);
    }
  }

  lemma Times(n: nat, most: nat)
    ensures (n + 1) * most == n * most + most
  {
  }

  lemma {:induction false} SumIsAtMost(nodes: map<MemberId, Node>, f: (nat, Node) -> nat, most: nat)
    requires forall id | id in nodes :: f(id, nodes[id]) <= most
    ensures Sum(nodes, f) <= |nodes| * most
    decreases |nodes|
  {
    if nodes != map[] {
      var id := Least(nodes.Keys);
      assert (nodes - {id}).Keys == nodes.Keys - {id};
      SumIsAtMost(nodes - {id}, f, most);
      Times(|nodes - {id}|, most);
    }
  }

  /** Whether the nodes between them count what is on the tally. */
  ghost predicate Counted(net: Network) {
    net.tally == Tally(Sum(net.nodes, VersionOf), Sum(net.nodes, AnswersOf))
  }

  lemma InitialIsCounted(places: Places, read: ReadUrl)
    ensures Sound(Initial(places), places, read) && Counted(Initial(places))
  {
    SumIsZero(Initial(places).nodes, VersionOf);
    SumIsZero(Initial(places).nodes, AnswersOf);
  }

  lemma StepIsCounted(net: Network, places: Places, read: ReadUrl, step: Step, net': Network)
    requires Counted(net) && Takes(net, places, read, step, net')
    ensures Counted(net')
  {
    SumChanged(net.nodes, VersionOf, step.node, net'.nodes[step.node]);
    SumChanged(net.nodes, AnswersOf, step.node, net'.nodes[step.node]);
  }

  lemma SoundAtNext(run: seq<Network>, places: Places, read: ReadUrl, steps: seq<Step>, k: nat)
    requires IsRun(run, places, read, steps) && 0 < k < |run|
    requires Sound(run[k - 1], places, read) && Counted(run[k - 1])
    ensures Sound(run[k], places, read) && Counted(run[k])
  {
    var net, step, net' := StepOf(run, places, read, steps, k);
    StepIsSound(net, places, read, step, net');
    StepIsCounted(net, places, read, step, net');
  }

  lemma StepOf(run: seq<Network>, places: Places, read: ReadUrl, steps: seq<Step>, k: nat)
      returns (net: Network, step: Step, net': Network)
    requires IsRun(run, places, read, steps) && 0 < k < |run|
    ensures net == run[k - 1] && net' == run[k] && Takes(net, places, read, step, net')
  {
    assert TakesAt(run, places, read, steps, k - 1);
    net, step, net' := run[k - 1], steps[k - 1], run[k];
  }

  /** Over every run each node knows where each member it has heard of is, having learned it once, and
      the tally is what the nodes count. */
  lemma {:induction false} EveryRunIsSound(run: seq<Network>, places: Places, read: ReadUrl, steps: seq<Step>, k: nat)
    requires IsRun(run, places, read, steps) && k < |run|
    ensures Sound(run[k], places, read) && Counted(run[k])
    decreases k
  {
    if k == 0 {
      InitialIsCounted(places, read);
    } else {
      EveryRunIsSound(run, places, read, steps, k - 1);
      SoundAtNext(run, places, read, steps, k);
    }
  }

  lemma CountedIsBounded(net: Network, places: Places, read: ReadUrl)
    requires Sound(net, places, read) && Counted(net)
    ensures net.tally.answers <= net.tally.news <= |places| * |places|
  {
    var nodes := net.nodes;
    forall id | id in nodes
      ensures VersionOf(id, nodes[id]) <= |places| && AnswersOf(id, nodes[id]) <= VersionOf(id, nodes[id])
    {
      assert SoundNode(nodes[id], places, read);
      SubsetSize(nodes[id].held.lookup.Keys, places.Keys);
    }
    SumIsAtMost(nodes, VersionOf, |places|);
    SmallerSums(nodes, AnswersOf, nodes, VersionOf);
    assert |nodes.Keys| == |places.Keys|;
  }

  /** The cascade ends: with n nodes that stay where they are, whatever is said and however it arrives,
      no more than n times n statements are ever news, and no more are said in answer to them. */
  lemma CascadeEnds(run: seq<Network>, places: Places, read: ReadUrl, steps: seq<Step>, k: nat)
    requires IsRun(run, places, read, steps) && k < |run|
    ensures run[k].tally.answers <= run[k].tally.news <= |places| * |places|
  {
    EveryRunIsSound(run, places, read, steps, k);
    CountedIsBounded(run[k], places, read);
  }

  /** What a node has heard of a member is never news to it again. */
  lemma NewsOnce(run: seq<Network>, places: Places, read: ReadUrl, steps: seq<Step>, k: nat)
    requires IsRun(run, places, read, steps) && k < |steps| && BringsNews(run[k], read, steps[k])
    ensures steps[k].said.member !in run[k].nodes[steps[k].node].held.lookup
  {
    EveryRunIsSound(run, places, read, steps, k);
    assert TakesAt(run, places, read, steps, k);
    NewsIsOfANewcomer(run[k].nodes[steps[k].node], places, read, steps[k].said);
  }
}
