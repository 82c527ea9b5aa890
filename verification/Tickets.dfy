/** The ticket store: which peers may download from which others. */
module Tickets {
  import opened Handprints

  type nodeid = string
  type ticket = string

  /** A handprint is immutable once it is in use. */
  type Fingers = seq<skey>

  datatype NodeInfo = NodeInfo(node: nodeid, handprint: Fingers, interested: bool)

  datatype TicketInfo = TicketInfo(ticket: ticket, source: nodeid, handprint: Fingers)

  datatype Edge = Edge(from: nodeid, to: nodeid)

  datatype Grant = Grant(ticket: ticket, edge: Edge)

  predicate Matching(a: Fingers, b: Fingers) {
    Common(a, b) >= NUM_FINGERS - 1
  }

  /** Never to its source, only to who is interested, once per edge, and for a matching file. */
  predicate Grantable(edges: set<Edge>, n: NodeInfo, t: TicketInfo) {
    && n.node != t.source
    && n.interested
    && Edge(t.source, n.node) !in edges
    && Matching(t.handprint, n.handprint)
  }

  /** Pooled tickets belong to registered nodes, and edges join registered nodes. */
  predicate Registered(nodes: map<nodeid, NodeInfo>, tickets: map<ticket, TicketInfo>, edges: set<Edge>) {
    && (forall n :: n in nodes ==> nodes[n].node == n)
    && (forall t :: t in tickets ==>
          && tickets[t].ticket == t
          && tickets[t].source in nodes
          && tickets[t].handprint == nodes[tickets[t].source].handprint)
    && (forall e :: e in edges ==> e.from in nodes && e.to in nodes && e.from != e.to)
  }

  /** No pooled ticket could be granted to anybody. */
  predicate Settled(nodes: map<nodeid, NodeInfo>, tickets: map<ticket, TicketInfo>, edges: set<Edge>) {
    forall n, t :: n in nodes && t in tickets ==> !Grantable(edges, nodes[n], tickets[t])
  }

  /** What is left when a node disappears. */
  function NodesWithout(nodes: map<nodeid, NodeInfo>, n: nodeid): map<nodeid, NodeInfo> {
    nodes - {n}
  }

  function EdgesWithout(edges: set<Edge>, n: nodeid): set<Edge> {
    set e | e in edges && e.from != n && e.to != n
  }

  function TicketsWithout(tickets: map<ticket, TicketInfo>, n: nodeid): map<ticket, TicketInfo> {
    map t | t in tickets && tickets[t].source != n :: tickets[t]
  }

  /** Leaving breaks nothing: what the node's edges held back goes with its tickets. */
  lemma LeavingKeeps(nodes: map<nodeid, NodeInfo>, tickets: map<ticket, TicketInfo>, edges: set<Edge>, n: nodeid)
    requires Registered(nodes, tickets, edges)
    ensures Registered(NodesWithout(nodes, n), TicketsWithout(tickets, n), EdgesWithout(edges, n))
    ensures Settled(nodes, tickets, edges) ==>
              Settled(NodesWithout(nodes, n), TicketsWithout(tickets, n), EdgesWithout(edges, n))
  {
  }

  /** How often tickets were granted along an edge. */
  function Times(granted: seq<Grant>, e: Edge): nat {
    if granted == [] then 0
    else Times(granted[..|granted| - 1], e) + if granted[|granted| - 1].edge == e then 1 else 0
  }

  /** No ticket ever went to its source, and the past edges count all grants. */
  ghost predicate Logged(granted: seq<Grant>, pastEdges: map<Edge, nat>) {
    && (forall g :: g in granted ==> g.edge.from != g.edge.to)
    && (forall e :: Past(pastEdges, e) == Times(granted, e))
  }

  lemma LogsGrant(granted: seq<Grant>, pastEdges: map<Edge, nat>, g: Grant)
    requires Logged(granted, pastEdges) && g.edge.from != g.edge.to
    ensures Logged(granted + [g], pastEdges[g.edge := Past(pastEdges, g.edge) + 1])
  {
    var granted' := granted + [g];
    var pastEdges' := pastEdges[g.edge := Past(pastEdges, g.edge) + 1];
    assert granted'[..|granted|] == granted;
    forall e ensures Past(pastEdges', e) == Times(granted', e) {
      assert Past(pastEdges, e) == Times(granted, e);
    }
  }

  ghost function TicketsOf(gs: seq<Grant>): set<ticket> {
    set g | g in gs :: g.ticket
  }

  ghost function EdgesOf(gs: seq<Grant>): set<Edge> {
    set g | g in gs :: g.edge
  }

  /** What an entering node does to the pool and the edges: a ticket leaves the pool exactly if
      it is granted, edges change by the grants only, and all of them obeyed the rules. */
  ghost predicate GrantedFrom(pool: map<ticket, TicketInfo>, base: set<Edge>, info: NodeInfo, gs: seq<Grant>,
                              tickets: map<ticket, TicketInfo>, edges: set<Edge>) {
    && tickets == pool - TicketsOf(gs)
    && edges == base + EdgesOf(gs)
    && (forall g :: g in gs ==> g.ticket in pool && g.edge == Edge(pool[g.ticket].source, info.node)
                                && Grantable(base, info, pool[g.ticket]))
    && (forall i, j :: 0 <= i < j < |gs| ==> gs[i].ticket != gs[j].ticket && gs[i].edge != gs[j].edge)
  }

  lemma NothingGranted(pool: map<ticket, TicketInfo>, base: set<Edge>, info: NodeInfo)
    ensures GrantedFrom(pool, base, info, [], pool, base)
  {
    assert pool - TicketsOf([]) == pool;
  }

  lemma OneMoreGranted(pool: map<ticket, TicketInfo>, base: set<Edge>, info: NodeInfo, gs: seq<Grant>,
                       tickets: map<ticket, TicketInfo>, edges: set<Edge>, t: ticket)
    requires GrantedFrom(pool, base, info, gs, tickets, edges)
    requires t in tickets && Grantable(edges, info, tickets[t])
    ensures var e := Edge(tickets[t].source, info.node);
            GrantedFrom(pool, base, info, gs + [Grant(t, e)], tickets - {t}, edges + {e})
  {
    var e := Edge(tickets[t].source, info.node);
    var gs' := gs + [Grant(t, e)];
    OneMore(gs, Grant(t, e));
    assert t !in TicketsOf(gs) && e !in EdgesOf(gs);
    assert tickets - {t} == pool - TicketsOf(gs');
    forall i | 0 <= i < |gs| ensures gs[i].ticket != t && gs[i].edge != e {
      assert gs[i] in gs;
      assert gs[i].ticket in TicketsOf(gs) && gs[i].edge in EdgesOf(gs);
    }
  }

  lemma OneMore(gs: seq<Grant>, g: Grant)
    ensures TicketsOf(gs + [g]) == TicketsOf(gs) + {g.ticket}
    ensures EdgesOf(gs + [g]) == EdgesOf(gs) + {g.edge}
  {
    forall t | t in TicketsOf(gs) ensures t in TicketsOf(gs + [g]) {
      var h :| h in gs && h.ticket == t;
      assert h in gs + [g];
    }
    forall e | e in EdgesOf(gs) ensures e in EdgesOf(gs + [g]) {
      var h :| h in gs && h.edge == e;
      assert h in gs + [g];
    }
    assert g in gs + [g];
  }

  /** Nobody but perhaps `n` could be granted a pooled ticket. */
  predicate SettledBut(nodes: map<nodeid, NodeInfo>, tickets: map<ticket, TicketInfo>, edges: set<Edge>, n: nodeid) {
    Settled(nodes - {n}, tickets, edges)
  }

  /** No ticket that has been tried could be granted to the node. */
  predicate NoneFor(tickets: map<ticket, TicketInfo>, untried: set<ticket>, edges: set<Edge>, info: NodeInfo) {
    forall t :: t in tickets && t !in untried ==> !Grantable(edges, info, tickets[t])
  }

  datatype Operation =
    | Init(node: nodeid, handprint: Fingers)
    | Interest(node: nodeid, interested: bool)
    | Exit(node: nodeid)
    | Offer(ticket: ticket, source: nodeid)

  /** The whole state of the store, with the calls made to the nodes' grant functions. */
  datatype Store = Store(nodes: map<nodeid, NodeInfo>, tickets: map<ticket, TicketInfo>, edges: set<Edge>,
                         pastEdges: map<Edge, nat>, granted: seq<Grant>)

  const EMPTY := Store(map[], map[], {}, map[], [])

  /** What one operation does. */
  ghost predicate Did(o: Operation, s: Store, s': Store) {
    match o
    case Init(n, handprint) =>
      var info := NodeInfo(n, handprint, true);
      && s'.nodes == s.nodes[n := info]
      && s.granted <= s'.granted
      && GrantedFrom(TicketsWithout(s.tickets, n), EdgesWithout(s.edges, n), info, s'.granted[|s.granted|..],
                     s'.tickets, s'.edges)
      && NoneFor(s'.tickets, {}, s'.edges, info)
    case Interest(n, interested) =>
      s' == if n in s.nodes then s.(nodes := s.nodes[n := s.nodes[n].(interested := interested)]) else s
    case Exit(n) =>
      s' == s.(nodes := NodesWithout(s.nodes, n), tickets := TicketsWithout(s.tickets, n), edges := EdgesWithout(s.edges, n))
    case Offer(t, source) =>
      if t in s.tickets || source !in s.nodes then s' == s
      else
        var info := TicketInfo(t, source, s.nodes[source].handprint);
        if forall n :: n in s.nodes ==> !Grantable(s.edges, s.nodes[n], info) then
          s' == s.(tickets := s.tickets[t := info])
        else
          exists n :: n in s.nodes && Grantable(s.edges, s.nodes[n], info) && s' == Granting(s, info, n)
  }

  /** An offered ticket is granted before it is ever pooled. */
  function Granting(s: Store, t: TicketInfo, n: nodeid): Store {
    var e := Edge(t.source, n);
    s.(edges := s.edges + {e}, pastEdges := s.pastEdges[e := Past(s.pastEdges, e) + 1],
       granted := s.granted + [Grant(t.ticket, e)])
  }

  lemma Entered(before: map<nodeid, NodeInfo>, nodes: map<nodeid, NodeInfo>, tickets: map<ticket, TicketInfo>,
                edges: set<Edge>, info: NodeInfo)
    requires nodes == NodesWithout(before, info.node)[info.node := info]
    requires Registered(NodesWithout(before, info.node), tickets, edges)
    ensures nodes == before[info.node := info]
    ensures Registered(nodes, tickets, edges)
    ensures Settled(NodesWithout(before, info.node), tickets, edges) ==> SettledBut(nodes, tickets, edges, info.node)
    ensures NoneFor(tickets, tickets.Keys, edges, info)
  {
    hide Grantable;
    assert nodes - {info.node} == NodesWithout(before, info.node);
  }

  lemma PooledTicket(nodes: map<nodeid, NodeInfo>, tickets: map<ticket, TicketInfo>, edges: set<Edge>, t: ticket)
    requires Registered(nodes, tickets, edges) && t in tickets
    ensures tickets[t].ticket == t
  {
  }

  lemma GrantingKeeps(nodes: map<nodeid, NodeInfo>, tickets: map<ticket, TicketInfo>, edges: set<Edge>, info: NodeInfo,
                      t: TicketInfo, untried: set<ticket>)
    requires t.ticket in tickets && tickets[t.ticket] == t && t.ticket in untried && untried <= tickets.Keys
    requires info.node in nodes && Grantable(edges, info, t)
    ensures Registered(nodes, tickets, edges) ==>
              Registered(nodes, tickets - {t.ticket}, edges + {Edge(t.source, info.node)})
    ensures SettledBut(nodes, tickets, edges, info.node) ==>
              SettledBut(nodes, tickets - {t.ticket}, edges + {Edge(t.source, info.node)}, info.node)
    ensures NoneFor(tickets, untried, edges, info) ==>
              NoneFor(tickets - {t.ticket}, untried - {t.ticket}, edges + {Edge(t.source, info.node)}, info)
    ensures untried - {t.ticket} <= (tickets - {t.ticket}).Keys
  {
  }

  lemma RefusingKeeps(tickets: map<ticket, TicketInfo>, edges: set<Edge>, info: NodeInfo, t: ticket, untried: set<ticket>)
    requires t in untried && untried <= tickets.Keys && !Grantable(edges, info, tickets[t])
    ensures NoneFor(tickets, untried, edges, info) ==> NoneFor(tickets, untried - {t}, edges, info)
  {
    hide Grantable;
  }

  lemma AllTried(nodes: map<nodeid, NodeInfo>, tickets: map<ticket, TicketInfo>, edges: set<Edge>, info: NodeInfo)
    requires info.node in nodes && nodes[info.node] == info
    requires NoneFor(tickets, {}, edges, info)
    ensures SettledBut(nodes, tickets, edges, info.node) ==> Settled(nodes, tickets, edges)
  {
    hide Grantable;
    forall n, t | SettledBut(nodes, tickets, edges, info.node) && n in nodes && t in tickets
      ensures !Grantable(edges, nodes[n], tickets[t])
    {
      if n != info.node { assert n in nodes - {info.node}; }
    }
  }

  /** Where interest returns, a pooled ticket may be waiting in vain: the store is settled
      afterwards exactly if no pooled ticket suits the node. */
  lemma RenewedInterest(nodes: map<nodeid, NodeInfo>, tickets: map<ticket, TicketInfo>, edges: set<Edge>, n: nodeid)
    requires n in nodes && Settled(nodes, tickets, edges)
    ensures var info := nodes[n].(interested := true);
      Settled(nodes[n := info], tickets, edges) <==> forall t :: t in tickets ==> !Grantable(edges, info, tickets[t])
  {
    hide Grantable;
    var info := nodes[n].(interested := true);
    var nodes' := nodes[n := info];
    forall m, t | m in nodes' && t in tickets && (forall u :: u in tickets ==> !Grantable(edges, info, tickets[u]))
      ensures !Grantable(edges, nodes'[m], tickets[t])
    {
    }
    forall t | t in tickets && Settled(nodes', tickets, edges) ensures !Grantable(edges, info, tickets[t]) {
      assert nodes'[n] == info;
    }
  }

  /** A run where that happens: `b` withdraws its interest, `a` offers a ticket for the same file,
      and `b` becomes interested again. */
  method RenewedInterestUnsettles(h: Fingers) returns (m: TicketMan)
    requires |h| == NUM_FINGERS
    ensures m.Valid() && !m.Quiet()
  {
    hide Did;
    m := new TicketMan();
    ghost var s0 := m.View();
    m.InitNode("a", h);
    EntersEmptyPool(s0, m.View(), "a", h);
    ghost var s1 := m.View();
    m.InitNode("b", h);
    EntersEmptyPool(s1, m.View(), "b", h);
    ghost var s2 := m.View();
    m.SetNodeInterested("b", false);
    ghost var s3 := m.View();
    InterestSet(s2, s3, "b", false);
    m.NewTicket("t", "a");
    ghost var s4 := m.View();
    OfferPooled(s3, s4, "a", "b", h);
    m.SetNodeInterested("b", true);
    InterestSet(s4, m.View(), "b", true);
    SuitsItself(h);
    assert Grantable(m.edges, m.nodes["b"], m.tickets["t"]);
  }

  lemma EntersEmptyPool(s: Store, s': Store, n: nodeid, h: Fingers)
    requires s.tickets == map[] && s.edges == {} && Did(Init(n, h), s, s')
    ensures s'.nodes == s.nodes[n := NodeInfo(n, h, true)] && s'.tickets == map[] && s'.edges == {}
  {
    var gs := s'.granted[|s.granted|..];
    assert forall i :: 0 <= i < |gs| ==> gs[i] in gs;
  }

  lemma InterestSet(s: Store, s': Store, n: nodeid, interested: bool)
    requires n in s.nodes && Did(Interest(n, interested), s, s')
    ensures s' == s.(nodes := s.nodes[n := s.nodes[n].(interested := interested)])
  {
  }

  /** A ticket that only an uninterested node could use is pooled. */
  lemma OfferPooled(s: Store, s': Store, a: nodeid, b: nodeid, h: Fingers)
    requires s.nodes == map[a := NodeInfo(a, h, true), b := NodeInfo(b, h, false)] && a != b && s.tickets == map[]
    requires Did(Offer("t", a), s, s')
    ensures s' == s.(tickets := map["t" := TicketInfo("t", a, h)])
  {
  }

  lemma SuitsItself(h: Fingers)
    requires |h| == NUM_FINGERS
    ensures Matching(h, h)
  {
    assert multiset(h) * multiset(h) == multiset(h);
  }

  /** Any run that only ever withdraws interest leaves no ticket in the pool that anybody could
      be granted. In any run at all no ticket goes to its source. */
  method Run(operations: seq<Operation>) returns (m: TicketMan, ghost states: seq<Store>)
    ensures |states| == |operations| + 1 && states[0] == EMPTY && states[|operations|] == m.View()
    ensures forall i :: 0 <= i < |operations| ==> Did(operations[i], states[i], states[i + 1])
    ensures m.Valid()
    ensures forall g :: g in m.granted ==> g.edge.from != g.edge.to
    ensures (forall o :: o in operations && o.Interest? ==> !o.interested) ==> m.Quiet()
  {
    hide Registered, Settled, Did;
    m := new TicketMan();
    states := [m.View()];
    for i := 0 to |operations|
      invariant m.Valid() && fresh(m)
      invariant |states| == i + 1 && states[0] == EMPTY && states[i] == m.View()
      invariant forall j :: 0 <= j < i ==> Did(operations[j], states[j], states[j + 1])
      invariant (forall o :: o in operations && o.Interest? ==> !o.interested) ==> m.Quiet()
    {
      match operations[i] {
        case Init(node, handprint) => m.InitNode(node, handprint);
        case Interest(node, interested) => m.SetNodeInterested(node, interested);
        case Exit(node) => m.ExitNode(node);
        case Offer(t, source) => m.NewTicket(t, source);
      }
      states := states + [m.View()];
    }
  }

  class TicketMan {
    var nodes: map<nodeid, NodeInfo>
    var tickets: map<ticket, TicketInfo>
    var edges: set<Edge>
    var pastEdges: map<Edge, nat>
    /** The calls made to the nodes' grant functions. */
    var granted: seq<Grant>

    constructor ()
      ensures Valid() && Quiet() && View() == EMPTY
    {
      nodes, tickets, edges, pastEdges, granted := map[], map[], {}, map[], [];
    }

    function View(): Store reads this {
      Store(nodes, tickets, edges, pastEdges, granted)
    }

    ghost predicate Valid() reads this {
      Registered(nodes, tickets, edges) && Logged(granted, pastEdges)
    }

    ghost predicate Quiet() reads this {
      Settled(nodes, tickets, edges)
    }

    method ResetNode(n: nodeid)
      requires Valid()
      modifies this
      ensures Valid() && (old(Quiet()) ==> Quiet())
      ensures nodes == NodesWithout(old(nodes), n)
      ensures edges == EdgesWithout(old(edges), n)
      ensures tickets == TicketsWithout(old(tickets), n)
      ensures pastEdges == old(pastEdges) && granted == old(granted)
    {
      LeavingKeeps(nodes, tickets, edges, n);
      nodes := nodes - {n};
      DropEdges(n);
      DropTickets(n);
    }

    method DropEdges(n: nodeid)
      modifies this`edges
      ensures edges == EdgesWithout(old(edges), n)
    {
      var es := edges;
      while es != {}
        invariant es <= old(edges)
        invariant edges == set e | e in old(edges) && (e in es || (e.from != n && e.to != n))
      {
        var e :| e in es;
        if e.from == n || e.to == n {
          edges := edges - {e};
        }
        es := es - {e};
      }
    }

    method DropTickets(n: nodeid)
      modifies this`tickets
      ensures tickets == TicketsWithout(old(tickets), n)
    {
      var ts := tickets.Keys;
      while ts != {}
        invariant ts <= old(tickets).Keys
        invariant tickets == map t | t in old(tickets) && (t in ts || old(tickets)[t].source != n) :: old(tickets)[t]
      {
        var t :| t in ts;
        if tickets[t].source == n {
          tickets := tickets - {t};
        }
        ts := ts - {t};
      }
    }

    /** Grants the ticket to the node if the rules allow. */
    method Match(n: NodeInfo, t: TicketInfo) returns (r: bool)
      modifies this
      ensures old(Logged(granted, pastEdges)) ==> Logged(granted, pastEdges)
      ensures r <==> Grantable(old(edges), n, t)
      ensures nodes == old(nodes)
      ensures r ==>
        && tickets == old(tickets) - {t.ticket}
        && edges == old(edges) + {Edge(t.source, n.node)}
        && granted == old(granted) + [Grant(t.ticket, Edge(t.source, n.node))]
        && pastEdges == old(pastEdges)[Edge(t.source, n.node) := Past(old(pastEdges), Edge(t.source, n.node)) + 1]
      ensures !r ==> tickets == old(tickets) && edges == old(edges) && granted == old(granted) && pastEdges == old(pastEdges)
    {
      if n.node == t.source { return false; }
      if !n.interested { return false; }
      var edge := Edge(t.source, n.node);
      if edge in edges { return false; }
      if !Matching(t.handprint, n.handprint) { return false; }
      ghost var logged := Logged(granted, pastEdges);
      if logged { LogsGrant(granted, pastEdges, Grant(t.ticket, edge)); }
      tickets := tickets - {t.ticket};
      edges := edges + {edge};
      pastEdges := pastEdges[edge := Past(pastEdges, edge) + 1];
      granted := granted + [Grant(t.ticket, edge)];
      return true;
    }

    /** A node enters. It gets what it can from the pool, at most one ticket of each source. */
    method InitNode(node: nodeid, handprint: Fingers)
      requires Valid()
      modifies this
      ensures Valid() && (old(Quiet()) ==> Quiet())
      ensures Did(Init(node, handprint), old(View()), View())
    {
      hide Grantable, Matching, Registered, Settled, SettledBut, NoneFor, TicketsWithout, EdgesWithout, Logged, GrantedFrom;
      ResetNode(node);
      var info := NodeInfo(node, handprint, true);
      nodes := nodes[node := info];
      var ts := tickets.Keys;
      ghost var pool, base := tickets, edges;
      Entered(old(nodes), nodes, tickets, edges, info);
      NothingGranted(pool, base, info);
      assert granted[|old(granted)|..] == [];
      while ts != {}
        invariant Valid() && nodes == old(nodes)[node := info] && ts <= tickets.Keys
        invariant old(Quiet()) ==> SettledBut(nodes, tickets, edges, node)
        invariant NoneFor(tickets, ts, edges, info)
        invariant old(granted) <= granted
        invariant GrantedFrom(pool, base, info, granted[|old(granted)|..], tickets, edges)
      {
        var t :| t in ts;
        ghost var was, before, gs := tickets, edges, granted[|old(granted)|..];
        PooledTicket(nodes, tickets, edges, t);
        var r := Match(info, tickets[t]);
        if r {
          GrantingKeeps(nodes, was, before, info, was[t], ts);
          OneMoreGranted(pool, base, info, gs, was, before, t);
          assert granted[|old(granted)|..] == gs + [Grant(t, Edge(was[t].source, node))];
        } else {
          RefusingKeeps(was, before, info, t, ts);
        }
        ts := ts - {t};
      }
      AllTried(nodes, tickets, edges, info);
    }

    method SetNodeInterested(node: nodeid, interested: bool)
      requires Valid()
      modifies this
      ensures Valid() && (old(Quiet()) && !interested ==> Quiet())
      ensures Did(Interest(node, interested), old(View()), View())
    {
      if node !in nodes { return; }
      nodes := nodes[node := nodes[node].(interested := interested)];
    }

    method ExitNode(node: nodeid)
      requires Valid()
      modifies this
      ensures Valid() && (old(Quiet()) ==> Quiet())
      ensures Did(Exit(node), old(View()), View())
    {
      ResetNode(node);
    }

    /** A ticket is granted to one interested node if there is any, or else pooled. */
    method NewTicket(t: ticket, source: nodeid)
      requires Valid()
      modifies this
      ensures Valid() && (old(Quiet()) ==> Quiet())
      ensures Did(Offer(t, source), old(View()), View())
    {
      if t in tickets { return; }
      if source !in nodes { return; }
      var info := TicketInfo(t, source, nodes[source].handprint);
      tickets := tickets[t := info];
      var ns := nodes.Keys;
      while ns != {}
        invariant ns <= nodes.Keys && nodes == old(nodes)
        invariant tickets == old(tickets)[t := info] && edges == old(edges) && granted == old(granted)
        invariant pastEdges == old(pastEdges)
        invariant forall n :: n in nodes && n !in ns ==> !Grantable(edges, nodes[n], info)
      {
        var n :| n in ns;
        var r := Match(nodes[n], info);
        if r {
          assert tickets == old(tickets);
          assert View() == Granting(old(View()), info, n);
          return;
        }
        ns := ns - {n};
      }
    }
  }

  function Past(pastEdges: map<Edge, nat>, e: Edge): nat {
    if e in pastEdges then pastEdges[e] else 0
  }
}
