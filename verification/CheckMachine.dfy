/**
 * One shard's check as its goroutines run it: one step per lock-protected action, every answer of the
 * environment carried by the step, and a log of everything observable.
 */
module CheckMachine {
  import opened Prelude
  import opened ShardMap
  import opened Failover
  import opened Checker

  datatype Event =
    | Acquired(snap: Shard)
    | Heartbeat(addr: Addr, answer: PingAnswer)
    | WroteBack(e: Shard)
    | LookedUp(e: Shard)
    | Voted(addr: Addr, vote: Vote)
    | PgPromoted(addr: Addr, ok: bool)
    | Swapped(from: Addr, e: Shard)
    | Drained(addr: Addr)
    | Released

  /** Where a check stands. Results arrive in slots: slot 0 is the primary's, slot i + 1 replica i's. */
  datatype Phase =
    | Idle
    | Pinging(snap: Shard, slots: seq<Option<Node>>)
    | Deciding
    | Voting(s: Shard, votes: seq<Option<Vote>>)
    | Promoting(s: Shard)
    | Swapping(s: Shard)
    | Draining(addr: Addr)
    | Finishing

  datatype Act =
    | Acquire(snap: Shard)
    | Ping(slot: nat, answer: PingAnswer)
    | WriteBack
    | Lookup
    | CastVote(slot: nat, vote: Vote)
    | CountBallots
    | PgPromote(ok: bool)
    | Swap
    | Drain
    | Release

  /** The shared state a check of one shard touches, and its own phase. */
  datatype Core = Core(entry: Shard, misses: Misses, phase: Phase)

  function NodeAt(s: Shard, slot: nat): Node
    requires slot <= |s.replicas|
  {
    if slot == 0 then s.primary else s.replicas[slot - 1]
  }

  predicate AllIn<T>(slots: seq<Option<T>>) {
    forall i :: 0 <= i < |slots| ==> slots[i].Some?
  }

  function Values<T>(slots: seq<Option<T>>): seq<T>
    requires AllIn(slots)
  {
    seq(|slots|, i requires 0 <= i < |slots| => slots[i].value)
  }

  function Blank<T>(n: nat): seq<Option<T>> {
    seq(n, _ => None)
  }

  predicate Enabled(c: Core, a: Act) {
    match a
    case Acquire(_) => c.phase.Idle?
    case Ping(slot, _) =>
      c.phase.Pinging? && slot < |c.phase.slots| == 1 + |c.phase.snap.replicas| && c.phase.slots[slot].None?
    case WriteBack => c.phase.Pinging? && c.phase.slots != [] && AllIn(c.phase.slots)
    case Lookup => c.phase.Deciding?
    case CastVote(slot, _) =>
      c.phase.Voting? && slot < |c.phase.votes| == |Witnesses(c.phase.s.replicas)| && c.phase.votes[slot].None?
    case CountBallots => c.phase.Voting? && AllIn(c.phase.votes)
    case PgPromote(_) => c.phase.Promoting? && Best(c.phase.s.replicas) != -1
    case Swap => c.phase.Swapping? && Best(c.phase.s.replicas) != -1
    case Drain => c.phase.Draining?
    case Release => c.phase.Finishing?
  }

  function Pinged1(opts: Options, c: Core, slot: nat, answer: PingAnswer): Core
    requires Enabled(c, Ping(slot, answer))
  {
    var n := NodeAt(c.phase.snap, slot);
    var misses := Recorded(c.misses, n.addr, answer.Alive?);
    var node := Pinged(opts, n, Count(misses, n.addr), answer, slot > 0);
    Core(c.entry, misses, Pinging(c.phase.snap, c.phase.slots[slot := Some(node)]))
  }

  function Assembled(snap: Shard, nodes: seq<Node>): Shard
    requires nodes != []
  {
    Shard(snap.id, nodes[0], nodes[1..])
  }

  function PastGuard(opts: Options, s: Shard): Phase {
    if opts.pgPromote then Promoting(s) else Swapping(s)
  }

  function Next(opts: Options, c: Core, a: Act): Core
    requires Enabled(c, a)
  {
    match a
    case Acquire(snap) => c.(phase := Pinging(snap, Blank(1 + |snap.replicas|)))
    case Ping(slot, answer) => Pinged1(opts, c, slot, answer)
    case WriteBack =>
      var e := Assembled(c.phase.snap, Values(c.phase.slots));
      Core(e, c.misses, if e.primary.status == Down then Deciding else Finishing)
    case Lookup =>
      c.(phase :=
        if Best(c.entry.replicas) == -1 then Finishing
        else if opts.quorumGuard then Voting(c.entry, Blank(|Witnesses(c.entry.replicas)|))
        else PastGuard(opts, c.entry))
    case CastVote(slot, vote) => c.(phase := Voting(c.phase.s, c.phase.votes[slot := Some(vote)]))
    case CountBallots =>
      c.(phase := if QuorumReached(Values(c.phase.votes)) then PastGuard(opts, c.phase.s) else Finishing)
    case PgPromote(ok) => c.(phase := if ok then Swapping(c.phase.s) else Finishing)
    case Swap => Core(FailedOver(c.phase.s), c.misses, Draining(c.phase.s.primary.addr))
    case Drain => c.(phase := Finishing)
    case Release => c.(phase := Idle)
  }

  /** What a step adds to the log. */
  function Emit(opts: Options, c: Core, a: Act): seq<Event>
    requires Enabled(c, a)
  {
    match a
    case Acquire(snap) => [Acquired(snap)]
    case Ping(slot, answer) => [Heartbeat(NodeAt(c.phase.snap, slot).addr, answer)]
    case WriteBack => [WroteBack(Next(opts, c, a).entry)]
    case Lookup => [LookedUp(c.entry)]
    case CastVote(slot, vote) => [Voted(Witnesses(c.phase.s.replicas)[slot].addr, vote)]
    case CountBallots => []
    case PgPromote(ok) => [PgPromoted(CandidateOf(c.phase.s).addr, ok)]
    case Swap => [Swapped(c.phase.s.primary.addr, Next(opts, c, a).entry)]
    case Drain => [Drained(c.phase.addr)]
    case Release => [Released]
  }

  // ----- what the log says -----

  /** Every entry the table has held, oldest first. */
  function Published(init: Shard, log: seq<Event>): seq<Shard> {
    if log == [] then [init]
    else match Last(log)
      case WroteBack(e) => Published(init, Front(log)) + [e]
      case Swapped(_, e) => Published(init, Front(log)) + [e]
      case _ => Published(init, Front(log))
  }

  /** The entry the table holds. */
  function Current(init: Shard, log: seq<Event>): Shard {
    if log == [] then init
    else match Last(log)
      case WroteBack(e) => e
      case Swapped(_, e) => e
      case _ => Current(init, Front(log))
  }

  /** The length of the trailing run of failed heartbeats in an address's history. */
  function MissRun(log: seq<Event>, a: Addr): nat {
    if log == [] then 0
    else match Last(log)
      case Heartbeat(b, answer) =>
        if b != a then MissRun(Front(log), a)
        else if answer.Alive? then 0
        else MissRun(Front(log), a) + 1
      case _ => MissRun(Front(log), a)
  }

  /** An address's last successful lag measurement, 0 before any. */
  function LastLag(log: seq<Event>, a: Addr): int {
    if log == [] then 0
    else match Last(log)
      case Heartbeat(b, Alive(lag)) => if b == a then lag else LastLag(Front(log), a)
      case _ => LastLag(Front(log), a)
  }

  /** The primaries that failovers have replaced, oldest first. */
  function Retired(log: seq<Event>): seq<Addr> {
    if log == [] then []
    else match Last(log)
      case Swapped(from, _) => Retired(Front(log)) + [from]
      case _ => Retired(Front(log))
  }

  /** The entry the running check wrote back, if it has and nothing was published since. */
  function OwnEntry(log: seq<Event>): Option<Shard> {
    if log == [] then None
    else match Last(log)
      case WroteBack(e) => Some(e)
      case Acquired(_) => None
      case Swapped(_, _) => None
      case Released => None
      case _ => OwnEntry(Front(log))
  }

  /** The entry the running check's failover attempt read from the table. */
  function ReadEntry(log: seq<Event>): Option<Shard> {
    if log == [] then None
    else match Last(log)
      case LookedUp(e) => Some(e)
      case Acquired(_) => None
      case Released => None
      case _ => ReadEntry(Front(log))
  }

  /** The votes cast in the running check, in the order they came in. */
  function VotesCast(log: seq<Event>): seq<(Addr, Vote)> {
    if log == [] then []
    else match Last(log)
      case Voted(a, v) => VotesCast(Front(log)) + [(a, v)]
      case Acquired(_) => []
      case Released => []
      case _ => VotesCast(Front(log))
  }

  /** A check's inputs: the snapshot it started from and every answer it got, without their order. */
  datatype Round = Round(snap: Shard, answers: Answers)

  function Rounds(log: seq<Event>): seq<Round> {
    if log == [] then []
    else
      var rs := Rounds(Front(log));
      match Last(log)
      case Acquired(snap) => rs + [Round(snap, Answers(map[], map[], {}))]
      case Heartbeat(a, answer) => if rs == [] then [] else Front(rs) + [WithPing(Last(rs), a, answer)]
      case Voted(a, v) => if rs == [] then [] else Front(rs) + [WithVote(Last(rs), a, v)]
      case PgPromoted(a, ok) => if rs == [] || !ok then rs else Front(rs) + [WithPromotion(Last(rs), a)]
      case _ => rs
  }

  function WithPing(r: Round, a: Addr, answer: PingAnswer): Round {
    r.(answers := r.answers.(pings := r.answers.pings[a := answer]))
  }

  function WithVote(r: Round, a: Addr, v: Vote): Round {
    r.(answers := r.answers.(votes := r.answers.votes[a := v]))
  }

  function WithPromotion(r: Round, a: Addr): Round {
    r.(answers := r.answers.(promotes := r.answers.promotes + {a}))
  }

  /** The shard's history as whole checks run one after the other. */
  function Replay(opts: Options, init: Shard, rounds: seq<Round>): Ledger {
    if rounds == [] then Ledger(init, map[])
    else WholeCheck(opts, Last(rounds).snap, Replay(opts, init, Front(rounds)).misses, Last(rounds).answers)
  }

  // ----- runs -----

  datatype Local = Local(core: Core, log: seq<Event>)

  function Start(init: Shard): Local {
    Local(Core(init, map[], Idle), [])
  }

  /** A check may start from any entry published so far: its sweep read the table before taking the flag. */
  predicate CanStep(init: Shard, s: Local, a: Act) {
    Enabled(s.core, a) && (a.Acquire? ==> a.snap in Published(init, s.log))
  }

  function Step(opts: Options, init: Shard, s: Local, a: Act): Local
    requires CanStep(init, s, a)
  {
    Local(Next(opts, s.core, a), s.log + Emit(opts, s.core, a))
  }

  /** The state after a run of steps, if every step was possible when it was taken. */
  function Run(opts: Options, init: Shard, acts: seq<Act>): Option<Local> {
    if acts == [] then Some(Start(init))
    else match Run(opts, init, Front(acts))
      case None => None
      case Some(s) => if CanStep(init, s, Last(acts)) then Some(Step(opts, init, s, Last(acts))) else None
  }
}
