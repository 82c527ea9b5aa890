/** The rule table implements the protocol, the protocol only moves forward, and every phase
    that pays the seller rests on evidence from the buyer. */
module TransactionProofs {
  import opened Prelude
  import opened Bids
  import opened Transactions

  // ---------------------------------------------------------------- the protocol, independently

  /** Who sends which kind of message. */
  function Sender(tx: Tx, kind: Kind): string {
    match kind
    case WorkHashes => tx.buyer
    case RejectResult => tx.buyer
    case AcceptResult => tx.buyer
    case _ => tx.seller
  }

  function Names(kind: Kind): set<string> {
    match kind
    case WorkHashes => {"workhash", "worksecrethash"}
    case WorkerUrl => {"workerurl"}
    case BuyerSecret => {"buyersecret"}
    case RejectWork => {"rejectwork"}
    case TransmitFinished => {"encresulthash", "encresulthashsig", "encresultkey"}
    case RejectResult => {"rejectresult"}
    case AcceptResult => {"acceptresult"}
  }

  /** The protocol seen from the phases: which message leads where. */
  function Next(phase: Phase, kind: Kind): Option<Phase> {
    match phase
    case Establishing =>
      (match kind
       case WorkHashes => Some(BuyerEstablished)
       case WorkerUrl => Some(SellerEstablished)
       case AcceptResult => Some(Finished)
       case _ => None)
    case BuyerEstablished =>
      (match kind
       case WorkerUrl => Some(Transmitting)
       case BuyerSecret => Some(Working)
       case AcceptResult => Some(Finished)
       case _ => None)
    case SellerEstablished =>
      (match kind
       case WorkHashes => Some(Transmitting)
       case RejectWork => Some(WorkDisputed)
       case AcceptResult => Some(Finished)
       case _ => None)
    case Transmitting =>
      (match kind
       case BuyerSecret => Some(Working)
       case RejectWork => Some(WorkDisputed)
       case AcceptResult => Some(Finished)
       case _ => None)
    case Working =>
      (match kind
       case RejectWork => Some(WorkDisputed)
       case TransmitFinished => Some(Unverified)
       case AcceptResult => Some(Finished)
       case _ => None)
    case Unverified =>
      (match kind
       case RejectResult => Some(WorkDisputed)
       case AcceptResult => Some(Finished)
       case _ => None)
    case _ => None
  }

  function RuleIndex(kind: Kind): nat {
    match kind
    case WorkHashes => 0
    case WorkerUrl => 1
    case BuyerSecret => 2
    case RejectWork => 3
    case TransmitFinished => 4
    case RejectResult => 5
    case AcceptResult => 6
  }

  function RuleFor(kind: Kind): (rule: Rule)
    ensures rule in RULES && rule.kind == kind
  {
    RULES[RuleIndex(kind)]
  }

  lemma RulesByKind(rule: Rule)
    requires rule in RULES
    ensures rule == RuleFor(rule.kind)
  {
  }

  lemma SubsetOfSameSize<T>(a: set<T>, b: set<T>)
    requires a <= b && |a| == |b|
    ensures a == b
  {
    assert |b - a| == |b| - |a|;
  }

  lemma NamesFitExactly(kind: Kind, arguments: Arguments)
    ensures NamesFit(RuleFor(kind), arguments) <==> arguments.Keys == Names(kind)
  {
    var names := RuleFor(kind).names;
    assert Names(kind) == set n | n in names;
    assert |Names(kind)| == |names|;
    if NamesFit(RuleFor(kind), arguments) {
      SubsetOfSameSize(Names(kind), arguments.Keys);
    }
  }

  lemma TableSound(kind: Kind, t: Transition)
    requires t in RuleFor(kind).transitions
    ensures Next(t.prePhase, kind) == Some(t.postPhase)
  {
  }

  lemma TableComplete(kind: Kind, phase: Phase)
    requires Next(phase, kind).Some?
    ensures exists t :: t in RuleFor(kind).transitions && t.prePhase == phase
  {
    var t := Transition(phase, Next(phase, kind).value);
    assert t in RuleFor(kind).transitions;
  }

  lemma TransitionsAreNext(kind: Kind, phase: Phase)
    ensures var t := FindTransition(RuleFor(kind).transitions, phase);
            Next(phase, kind) == if t.Some? then Some(t.value.postPhase) else None
  {
    var t := FindTransition(RuleFor(kind).transitions, phase);
    if t.Some? {
      TableSound(kind, t.value);
    } else if Next(phase, kind).Some? {
      TableComplete(kind, phase);
    }
  }

  /** `kind` is the message that `arguments` sent by `address` amount to in this phase. */
  predicate Means(tx: Tx, address: string, arguments: Arguments, kind: Kind) {
    && arguments.Keys == Names(kind)
    && address == Sender(tx, kind)
    && Next(tx.phase, kind).Some?
  }

  predicate Receptive(tx: Tx, now: int) {
    tx.state == Active && now < tx.timeout
  }

  lemma FoundRule(tx: Tx, address: string, arguments: Arguments, kind: Kind)
    requires arguments.Keys == Names(kind) && address == Sender(tx, kind)
    ensures FindRule(RULES, tx, address, arguments) == Some(RuleFor(kind))
  {
    NamesFitExactly(kind, arguments);
    var found := FindRule(RULES, tx, address, arguments);
    assert SenderFits(RuleFor(kind), tx, address);
    RulesByKind(found.value);
    NamesFitExactly(found.value.kind, arguments);
    DistinctNames(kind, found.value.kind);
  }

  lemma DistinctNames(k: Kind, j: Kind)
    requires Names(k) == Names(j)
    ensures k == j
  {
    var name: Kind -> string := kind => RuleFor(kind).names[0];
    assert name(k) in Names(j) && name(j) in Names(k);
  }

  /** The rule that is found is that of the message's kind. */
  lemma FoundRuleFits(tx: Tx, address: string, arguments: Arguments)
    ensures var found := FindRule(RULES, tx, address, arguments);
            found.Some? ==>
              && found.value == RuleFor(found.value.kind)
              && arguments.Keys == Names(found.value.kind)
              && address == Sender(tx, found.value.kind)
  {
    var found := FindRule(RULES, tx, address, arguments);
    if found.Some? {
      RulesByKind(found.value);
      NamesFitExactly(found.value.kind, arguments);
    }
  }

  /** Table lookup, transition lookup and handler together accept exactly what the protocol
      allows, and then move to the protocol's next phase. */
  lemma DeliverFollowsProtocol(crypto: Crypto, tx: Tx, now: int, address: string, arguments: Arguments)
    ensures var (tx', m) := Deliver(crypto, tx, now, address, arguments);
            && (m.accepted <==>
                (Receptive(tx, now) &&
                 exists kind :: Means(tx, address, arguments, kind) && Handle(crypto, kind, tx, arguments).Ok?))
            && (m.accepted ==> tx'.phase == m.postPhase && m.prePhase == tx.phase)
            && (forall kind :: m.accepted && Means(tx, address, arguments, kind) ==>
                  Next(tx.phase, kind) == Some(tx'.phase) && Handle(crypto, kind, tx, arguments).Ok?)
            && (!m.accepted ==> tx' == tx)
  {
    hide Handle, FindRule, FindTransition, RuleFor, Names, Sender, Next, NamesFit, SenderFits;
    var found := FindRule(RULES, tx, address, arguments);
    FoundRuleFits(tx, address, arguments);
    if found.Some? {
      var kind := found.value.kind;
      TransitionsAreNext(kind, tx.phase);
      assert Next(tx.phase, kind).Some? ==> Means(tx, address, arguments, kind);
    }
    forall kind | Means(tx, address, arguments, kind) ensures found == Some(RuleFor(kind)) {
      FoundRule(tx, address, arguments, kind);
    }
  }

  // ---------------------------------------------------------------- kind by kind

  /** A message of a given kind, from the party that may send it. */
  lemma DeliverKind(crypto: Crypto, tx: Tx, now: int, address: string, arguments: Arguments, kind: Kind)
    requires arguments.Keys == Names(kind) && address == Sender(tx, kind)
    ensures var (tx', m) := Deliver(crypto, tx, now, address, arguments);
      && (m.accepted <==> Receptive(tx, now) && Next(tx.phase, kind).Some? && Handle(crypto, kind, tx, arguments).Ok?)
      && (m.accepted ==>
            tx' == Handle(crypto, kind, tx, arguments).value
                   .(phase := Next(tx.phase, kind).value, revision := tx.revision + 1, timeout := tx'.timeout))
      && (m.accepted && tx'.phase in {Finished, WorkDisputed} ==> tx'.timeout == now)
  {
    hide Handle, FindRule, FindTransition, RuleFor, Names, Sender, Next, NamesFit, SenderFits;
    FoundRule(tx, address, arguments, kind);
    TransitionsAreNext(kind, tx.phase);
    if Next(tx.phase, kind).Some? { ProtocolAdvances(tx.phase, kind); }
  }

  /** The buyer's hashes are taken as the two arguments of these names state them, before the
      buyer has been established and if both are hashes. */
  lemma HashesTaken(crypto: Crypto, tx: Tx, now: int, arguments: Arguments)
    requires arguments.Keys == {"workhash", "worksecrethash"}
    ensures var (tx', m) := Deliver(crypto, tx, now, tx.buyer, arguments);
      && (m.accepted <==>
            && tx.state == Active && now < tx.timeout && tx.phase in {Establishing, SellerEstablished}
            && IsHash(arguments["workhash"]) && IsHash(arguments["worksecrethash"]))
      && (m.accepted ==>
            tx' == tx.(workHash := Some(arguments["workhash"]), workSecretHash := Some(arguments["worksecrethash"]),
                       phase := if tx.phase == Establishing then BuyerEstablished else Transmitting,
                       revision := tx.revision + 1, timeout := tx'.timeout))
  {
    hide IsHash, Deliver;
    DeliverKind(crypto, tx, now, tx.buyer, arguments, WorkHashes);
  }

  /** The worker's address is taken before the seller has been established, if it is a URL. */
  lemma UrlTaken(crypto: Crypto, tx: Tx, now: int, arguments: Arguments)
    requires arguments.Keys == {"workerurl"}
    ensures var (tx', m) := Deliver(crypto, tx, now, tx.seller, arguments);
      && (m.accepted <==>
            && tx.state == Active && now < tx.timeout && tx.phase in {Establishing, BuyerEstablished}
            && IsWorkerUrl(crypto, arguments["workerurl"]))
      && (m.accepted ==>
            tx' == tx.(workerUrl := Some(arguments["workerurl"]),
                       phase := if tx.phase == Establishing then SellerEstablished else Transmitting,
                       revision := tx.revision + 1, timeout := tx'.timeout))
  {
    hide IsWorkerUrl, Deliver;
    DeliverKind(crypto, tx, now, tx.seller, arguments, WorkerUrl);
  }

  /** The buyer's secret is taken from the seller once both hashes are on record, if together with
      the work's hash it has the stated hash. */
  lemma SecretTaken(crypto: Crypto, tx: Tx, now: int, arguments: Arguments)
    requires arguments.Keys == {"buyersecret"}
    ensures var (tx', m) := Deliver(crypto, tx, now, tx.seller, arguments);
      && (m.accepted <==>
            && tx.state == Active && now < tx.timeout && tx.phase in {BuyerEstablished, Transmitting}
            && IsHash(arguments["buyersecret"]) && tx.workHash.Some? && tx.workSecretHash.Some?
            && crypto.sha(tx.workHash.value, arguments["buyersecret"]) == tx.workSecretHash.value)
      && (m.accepted ==>
            tx' == tx.(buyerSecret := Some(arguments["buyersecret"]), phase := Working,
                       revision := tx.revision + 1, timeout := tx'.timeout))
  {
    hide IsHash, Deliver;
    DeliverKind(crypto, tx, now, tx.seller, arguments, BuyerSecret);
  }

  /** The result is taken while work goes on, if the buyer's signature of its hash verifies. */
  lemma ReceiptTaken(crypto: Crypto, tx: Tx, now: int, arguments: Arguments)
    requires arguments.Keys == {"encresulthash", "encresulthashsig", "encresultkey"}
    ensures var (tx', m) := Deliver(crypto, tx, now, tx.seller, arguments);
      var signature := crypto.decodeSignature(arguments["encresulthashsig"]);
      && (m.accepted <==>
            && tx.state == Active && now < tx.timeout && tx.phase == Working
            && IsHash(arguments["encresulthash"]) && IsHash(arguments["encresultkey"])
            && signature.Some? && crypto.verify(arguments["encresulthash"], tx.buyer, signature.value))
      && (m.accepted ==>
            tx' == tx.(receipt := Some(Receipt(arguments["encresulthash"], signature.value)),
                       resultKey := Some(arguments["encresultkey"]), phase := Unverified,
                       revision := tx.revision + 1, timeout := tx'.timeout))
  {
    hide IsHash, Deliver;
    DeliverKind(crypto, tx, now, tx.seller, arguments, TransmitFinished);
  }

  /** Acceptance ends every phase but the final ones, and the two rejections end theirs; none of
      them touches anything else. */
  lemma VerdictTaken(crypto: Crypto, tx: Tx, now: int, arguments: Arguments)
    ensures arguments.Keys == {"acceptresult"} ==>
      var (tx', m) := Deliver(crypto, tx, now, tx.buyer, arguments);
      && (m.accepted <==> tx.state == Active && now < tx.timeout && tx.phase !in {Finished, WorkDisputed, ResultDisputed})
      && (m.accepted ==> tx' == tx.(phase := Finished, revision := tx.revision + 1, timeout := now))
    ensures arguments.Keys == {"rejectresult"} ==>
      var (tx', m) := Deliver(crypto, tx, now, tx.buyer, arguments);
      && (m.accepted <==> tx.state == Active && now < tx.timeout && tx.phase == Unverified)
      && (m.accepted ==> tx' == tx.(phase := WorkDisputed, revision := tx.revision + 1, timeout := now))
    ensures arguments.Keys == {"rejectwork"} ==>
      var (tx', m) := Deliver(crypto, tx, now, tx.seller, arguments);
      && (m.accepted <==> tx.state == Active && now < tx.timeout && tx.phase in {SellerEstablished, Transmitting, Working})
      && (m.accepted ==> tx' == tx.(phase := WorkDisputed, revision := tx.revision + 1, timeout := now))
  {
    hide Deliver;
    if arguments.Keys == {"acceptresult"} { DeliverKind(crypto, tx, now, tx.buyer, arguments, AcceptResult); }
    if arguments.Keys == {"rejectresult"} { DeliverKind(crypto, tx, now, tx.buyer, arguments, RejectResult); }
    if arguments.Keys == {"rejectwork"} { DeliverKind(crypto, tx, now, tx.seller, arguments, RejectWork); }
  }

  // ---------------------------------------------------------------- progress and time

  function Rank(phase: Phase): nat {
    match phase
    case Establishing => 0
    case BuyerEstablished => 1
    case SellerEstablished => 1
    case Transmitting => 2
    case Working => 3
    case Unverified => 4
    case _ => 5
  }

  /** The most time a transaction can have been granted in each phase. */
  function Allowance(phase: Phase): int {
    match phase
    case Establishing => 1 * MINUTE
    case BuyerEstablished => 1 * MINUTE
    case SellerEstablished => 1 * MINUTE
    case Transmitting => 3 * MINUTE
    case Working => 8 * MINUTE
    case _ => 23 * MINUTE
  }

  lemma ProtocolAdvances(phase: Phase, kind: Kind)
    requires Next(phase, kind).Some?
    ensures Rank(phase) < Rank(Next(phase, kind).value)
  {
  }

  // ---------------------------------------------------------------- evidence

  predicate HashesPresent(tx: Tx) {
    tx.workHash.Some? && tx.workSecretHash.Some?
  }

  predicate SecretPublished(crypto: Crypto, tx: Tx) {
    && HashesPresent(tx)
    && tx.buyerSecret.Some?
    && crypto.sha(tx.workHash.value, tx.buyerSecret.value) == tx.workSecretHash.value
  }

  predicate ReceiptVerified(crypto: Crypto, tx: Tx) {
    && tx.receipt.Some? && tx.resultKey.Some?
    && crypto.verify(tx.receipt.value.hash, tx.buyer, tx.receipt.value.signature)
  }

  /** What must be on record for the transaction to be in its phase. */
  predicate Evidence(crypto: Crypto, tx: Tx) {
    && (tx.phase in {BuyerEstablished, Transmitting} ==> HashesPresent(tx))
    && (tx.phase in {Working, Unverified} ==> SecretPublished(crypto, tx))
    && (tx.phase == Unverified ==> ReceiptVerified(crypto, tx))
    && (tx.receipt.Some? <==> tx.resultKey.Some?)
    && (tx.workerUrl.Some? ==> crypto.validUri(tx.workerUrl.value))
  }

  /** An accepted message of the protocol, sent by the party entitled to it. */
  predicate Legitimate(tx: Tx, m: Tmessage, kind: Kind) {
    && m.accepted
    && m.arguments.Keys == Names(kind)
    && m.sender == Sender(tx, kind)
    && Next(m.prePhase, kind) == Some(m.postPhase)
  }

  /** The recorded messages lead, one by one, from the initial phase to `phase`. */
  ghost predicate LeadsTo(tx: Tx, messages: seq<Tmessage>, phase: Phase) {
    if messages == [] then phase == Establishing else
    var last := messages[|messages| - 1];
    && last.postPhase == phase
    && (exists kind :: Legitimate(tx, last, kind))
    && LeadsTo(tx, messages[..|messages| - 1], last.prePhase)
  }

  ghost predicate Reached(messages: seq<Tmessage>, phase: Phase) {
    exists i :: 0 <= i < |messages| && messages[i].postPhase == phase
  }

  /** The time added for having reached a phase. */
  ghost function Extra(messages: seq<Tmessage>, phase: Phase, time: int): int {
    if Reached(messages, phase) then time else 0
  }

  /** The timeout, from the recorded messages alone: 60 seconds after the match, plus 2, 5 and 15
      minutes for having reached Transmitting, Working and Unverified; in the final phases it is
      the arrival of the last message. */
  ghost predicate TimeoutExact(tx: Tx, messages: seq<Tmessage>) {
    if tx.phase in {Finished, WorkDisputed, ResultDisputed} then
      messages != [] && tx.timeout == messages[|messages| - 1].received
    else
      tx.timeout == tx.matched + 60 * SECOND + Extra(messages, Transmitting, 2 * MINUTE)
                    + Extra(messages, Working, 5 * MINUTE) + Extra(messages, Unverified, 15 * MINUTE)
  }

  ghost predicate TxOk(crypto: Crypto, tx: Tx, messages: seq<Tmessage>) {
    && Evidence(crypto, tx)
    && tx.timeout <= tx.matched + Allowance(tx.phase)
    && LeadsTo(tx, messages, tx.phase)
    && TimeoutExact(tx, messages)
  }

  /** The parties and terms of a transaction never change. */
  predicate SameDeal(tx: Tx, tx': Tx) {
    && tx'.buyerBid == tx.buyerBid && tx'.sellerBid == tx.sellerBid
    && tx'.buyer == tx.buyer && tx'.seller == tx.seller
    && tx'.article == tx.article && tx'.price == tx.price && tx'.fee == tx.fee
    && tx'.matched == tx.matched
  }

  lemma HandleKeepsDeal(crypto: Crypto, kind: Kind, tx: Tx, arguments: Arguments)
    requires Handle(crypto, kind, tx, arguments).Ok?
    ensures var tx' := Handle(crypto, kind, tx, arguments).value;
            SameDeal(tx, tx') && tx'.phase == tx.phase && tx'.state == tx.state
            && tx'.timeout == tx.timeout && tx'.revision == tx.revision
  {
  }

  /** A message handled on the way to the next phase leaves the evidence that phase needs. */
  lemma HandleGathersEvidence(crypto: Crypto, kind: Kind, tx: Tx, arguments: Arguments, revision: int, timeout: int)
    requires Evidence(crypto, tx) && Next(tx.phase, kind).Some?
    requires Handle(crypto, kind, tx, arguments).Ok?
    ensures Evidence(crypto, Handle(crypto, kind, tx, arguments).value
                             .(phase := Next(tx.phase, kind).value, revision := revision, timeout := timeout))
  {
  }

  lemma SenderSameDeal(tx: Tx, tx': Tx, kind: Kind)
    requires SameDeal(tx, tx')
    ensures Sender(tx', kind) == Sender(tx, kind)
  {
  }

  lemma {:induction false} LeadsToSameDeal(tx: Tx, tx': Tx, messages: seq<Tmessage>, phase: Phase)
    requires SameDeal(tx, tx') && LeadsTo(tx, messages, phase)
    ensures LeadsTo(tx', messages, phase)
  {
    if messages != [] {
      var last := messages[|messages| - 1];
      LeadsToSameDeal(tx, tx', messages[..|messages| - 1], last.prePhase);
      var kind :| Legitimate(tx, last, kind);
      assert Legitimate(tx', last, kind);
    }
  }

  lemma ArriveFacts(tx: Tx, now: int)
    ensures Arrive(tx, now) == tx.(timeout := Arrive(tx, now).timeout)
  {
  }

  lemma TimeGranted(tx: Tx, kind: Kind, now: int, moved: Tx)
    requires now < tx.timeout <= tx.matched + Allowance(tx.phase)
    requires Next(tx.phase, kind) == Some(moved.phase) && moved.timeout == tx.timeout
    ensures Arrive(moved, now).timeout <= tx.matched + Allowance(moved.phase)
  {
  }

  /** No message led further than the current phase. */
  lemma {:induction false} NothingBeyond(tx: Tx, messages: seq<Tmessage>, phase: Phase, i: nat)
    requires LeadsTo(tx, messages, phase) && i < |messages|
    ensures Rank(messages[i].postPhase) <= Rank(phase)
  {
    var n := |messages| - 1;
    if i < n {
      var kind :| Legitimate(tx, messages[n], kind);
      ProtocolAdvances(messages[n].prePhase, kind);
      NothingBeyond(tx, messages[..n], messages[n].prePhase, i);
    }
  }

  lemma ReachedMore(messages: seq<Tmessage>, m: Tmessage, phase: Phase)
    ensures Reached(messages + [m], phase) <==> Reached(messages, phase) || m.postPhase == phase
  {
    var all := messages + [m];
    assert all[|messages|] == m;
    if Reached(messages, phase) {
      var i :| 0 <= i < |messages| && messages[i].postPhase == phase;
      assert all[i] == messages[i];
    }
  }

  lemma NotReachedYet(tx: Tx, messages: seq<Tmessage>, kind: Kind, phase: Phase)
    requires LeadsTo(tx, messages, tx.phase) && Next(tx.phase, kind) == Some(phase)
    ensures !Reached(messages, phase)
  {
    ProtocolAdvances(tx.phase, kind);
    if Reached(messages, phase) {
      var i :| 0 <= i < |messages| && messages[i].postPhase == phase;
      NothingBeyond(tx, messages, tx.phase, i);
    }
  }

  lemma TimeoutKept(tx: Tx, messages: seq<Tmessage>, m: Tmessage, kind: Kind, now: int, moved: Tx)
    requires TimeoutExact(tx, messages) && LeadsTo(tx, messages, tx.phase)
    requires Next(tx.phase, kind) == Some(moved.phase) && moved.timeout == tx.timeout && moved.matched == tx.matched
    requires m.postPhase == moved.phase && m.received == now
    ensures TimeoutExact(Arrive(moved, now), messages + [m])
  {
    hide Reached, LeadsTo;
    NotReachedYet(tx, messages, kind, moved.phase);
    ReachedMore(messages, m, Transmitting);
    ReachedMore(messages, m, Working);
    ReachedMore(messages, m, Unverified);
  }

  /** What an accepted message has done, step by step. */
  lemma AcceptedMessage(crypto: Crypto, tx: Tx, now: int, address: string, arguments: Arguments)
    returns (kind: Kind, moved: Tx)
    requires Deliver(crypto, tx, now, address, arguments).1.accepted
    ensures Receptive(tx, now) && Means(tx, address, arguments, kind) && Handle(crypto, kind, tx, arguments).Ok?
    ensures var (tx', m) := Deliver(crypto, tx, now, address, arguments);
      && Next(tx.phase, kind) == Some(tx'.phase)
      && moved == Handle(crypto, kind, tx, arguments).value.(phase := tx'.phase, revision := tx.revision + 1)
      && tx' == Arrive(moved, now)
      && m.accepted && m.arguments == arguments && m.sender == address && m.received == now
      && m.prePhase == tx.phase && m.postPhase == tx'.phase
  {
    hide Handle, FindRule, FindTransition, RuleFor, Names, Sender, Next, NamesFit, SenderFits, Arrive, Rank;
    var (tx', m) := Deliver(crypto, tx, now, address, arguments);
    DeliverFollowsProtocol(crypto, tx, now, address, arguments);
    kind :| Means(tx, address, arguments, kind) && Handle(crypto, kind, tx, arguments).Ok?;
    FoundRule(tx, address, arguments, kind);
    ProtocolAdvances(tx.phase, kind);
    moved := Handle(crypto, kind, tx, arguments).value.(phase := tx'.phase, revision := tx.revision + 1);
  }

  /** Every accepted message strictly advances the phase, keeps the parties and the terms,
      keeps the time limit, and leaves all required evidence on record. */
  lemma DeliverKeepsOk(crypto: Crypto, tx: Tx, messages: seq<Tmessage>, now: int, address: string,
                       arguments: Arguments)
    requires TxOk(crypto, tx, messages) && Deliver(crypto, tx, now, address, arguments).1.accepted
    ensures var (tx', m) := Deliver(crypto, tx, now, address, arguments);
            && TxOk(crypto, tx', messages + [m])
            && SameDeal(tx, tx')
            && tx'.state == tx.state == Active
            && Rank(tx.phase) < Rank(tx'.phase)
            && tx'.revision == tx.revision + 1
  {
    hide Deliver, Handle, Names, Sender, Next, Arrive, Evidence, Rank, Allowance, LeadsTo, TimeoutExact;
    var (tx', m) := Deliver(crypto, tx, now, address, arguments);
    var kind, moved := AcceptedMessage(crypto, tx, now, address, arguments);
    ProtocolAdvances(tx.phase, kind);
    HandleKeepsDeal(crypto, kind, tx, arguments);
    HandleGathersEvidence(crypto, kind, tx, arguments, tx'.revision, tx'.timeout);
    ArriveFacts(moved, now);
    TimeGranted(tx, kind, now, moved);
    TimeoutKept(tx, messages, m, kind, now, moved);
    LeadsToSameDeal(tx, tx', messages, tx.phase);
    SenderSameDeal(tx, tx', kind);
    LeadsOn(tx', messages, m, kind);
  }

  lemma LeadsOn(tx: Tx, messages: seq<Tmessage>, m: Tmessage, kind: Kind)
    requires LeadsTo(tx, messages, m.prePhase) && Legitimate(tx, m, kind)
    ensures LeadsTo(tx, messages + [m], m.postPhase)
  {
    hide Legitimate;
    var all := messages + [m];
    assert all[..|all| - 1] == messages && all[|all| - 1] == m;
  }

  /** At most five messages are ever accepted. */
  lemma {:induction false} FewMessages(tx: Tx, messages: seq<Tmessage>, phase: Phase)
    requires LeadsTo(tx, messages, phase)
    ensures |messages| <= Rank(phase) <= 5
  {
    if messages != [] {
      var last := messages[|messages| - 1];
      var kind :| Legitimate(tx, last, kind);
      ProtocolAdvances(last.prePhase, kind);
      FewMessages(tx, messages[..|messages| - 1], last.prePhase);
    }
  }

  /** The seller is paid only if the buyer accepted the result or signed for having received
      it: the last message of a finished transaction is the buyer's acceptance, and an
      unverified one holds a receipt that verifies for the buyer. */
  lemma PaymentIsJustified(crypto: Crypto, tx: Tx, messages: seq<Tmessage>)
    requires TxOk(crypto, tx, messages) && PaysSeller(tx)
    ensures || (messages != []
                && Legitimate(tx, messages[|messages| - 1], AcceptResult)
                && messages[|messages| - 1].sender == tx.buyer)
            || (ReceiptVerified(crypto, tx) && SecretPublished(crypto, tx))
  {
    if tx.phase == Finished {
      var last := messages[|messages| - 1];
      var kind :| Legitimate(tx, last, kind);
      assert kind == AcceptResult;
    }
  }

  /** The buyer's secret is only ever checked against hashes that are on record: the handler's
      dereference of both hashes cannot fail. */
  lemma SecretMeetsHashes(crypto: Crypto, tx: Tx)
    requires Evidence(crypto, tx) && Next(tx.phase, BuyerSecret).Some?
    ensures HashesPresent(tx)
  {
  }

  lemma FreshTxOk(crypto: Crypto, now: int, newKey: string, oldKey: string, newBid: Bid, oldBid: Bid)
    requires NewTransaction(now, newKey, oldKey, newBid, oldBid).Ok?
    ensures TxOk(crypto, NewTransaction(now, newKey, oldKey, newBid, oldBid).value.0, [])
  {
  }
}
