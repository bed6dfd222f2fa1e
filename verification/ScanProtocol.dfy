/** The parallel scan: workers that share a work counter, a result counter and a stop flag, and report over
    a rendezvous channel to one draining thread. A run is any sequence of atomic events in any interleaving. */
module ScanProtocol {
  import opened Numbers
  import opened Sums
  import M = Memory

  /** What evaluating one position comes to; a fault is a decoding or predicate error. */
  datatype Outcome = Miss | Hit | Fault

  /** One position to evaluate: the value found there, the value of an earlier scan, what comparing them comes to,
      and the bytes of the scan it accounts for. */
  datatype Item = Item(
    address: nat, current: seq<M.Byte>, previous: Option<seq<M.Byte>>, outcome: Outcome, bytes: nat)

  /** One unit of claimed work. `lump` is accounted for at once: the span of an unreadable chunk. */
  datatype Batch = Batch(items: seq<Item>, lump: nat)

  datatype Config = Config(batches: seq<Batch>, maxResults: nat, workers: nat)

  datatype Pc =
    | Idle                                            // about to look at the stop and cancel flags
    | Claiming                                        // about to take the next batch
    | Scanning(rest: seq<Item>)                       // about to look at the flags and the next item
    | Reserving(item: Item, rest: seq<Item>)          // matched: about to take a result slot
    | Truncating(item: Item, rest: seq<Item>, granted: bool)   // about to set the truncated flag
    | Stopping(item: Item, rest: seq<Item>, granted: bool)     // about to set the stop flag
    | Publishing                                      // about to add the covered bytes
    | Reporting                                       // blocked sending a progress event
    | Leaving(failed: bool)                           // blocked sending the final event
    | Exited(failed: bool)

  /** `seen` are the items evaluated, `found` the results kept, `covered` the bytes not yet published. */
  datatype Worker = Worker(pc: Pc, seen: seq<Item>, found: seq<Item>, covered: nat)

  /** `abandoned` and `lost` record what a stop, a cancellation or a fault left unevaluated. */
  datatype State = State(
    next: nat, accepted: nat, truncated: bool, stop: bool, cancelled: bool,
    bytes: nat, completed: nat, workers: seq<Worker>, abandoned: multiset<Item>, lost: nat)

  datatype Event =
    | Check(i: nat)
    | Claim(i: nat)
    | Look(i: nat, publish: bool)
    | Reserve(i: nat)
    | FlagTruncated(i: nat)
    | FlagStop(i: nat)
    | Publish(i: nat)
    | Deliver(i: nat)
    | Cancel

  function Start(c: Config): State {
    State(0, 0, false, false, false, 0, 0, seq(c.workers, i => Worker(Idle, [], [], 0)), multiset{}, 0)
  }

  predicate Halted(s: State) {
    s.stop || s.cancelled
  }

  predicate Enabled(c: Config, s: State, e: Event) {
    if e.Cancel? then !s.cancelled
    else if |s.workers| <= e.i then false
    else
      var pc := s.workers[e.i].pc;
      match e
      case Check(_) => pc.Idle?
      case Claim(_) => pc.Claiming?
      case Look(_, _) => pc.Scanning?
      case Reserve(_) => pc.Reserving?
      case FlagTruncated(_) => pc.Truncating?
      case FlagStop(_) => pc.Stopping?
      case Publish(_) => pc.Publishing?
      // The draining thread receives only while it still expects final events.
      case Deliver(_) => (pc.Reporting? || pc.Leaving?) && s.completed < c.workers
  }

  /** What one event of a worker does: to the worker itself, and to the shared state. */
  datatype Effect = Effect(
    worker: Worker, claims: bool, reserves: bool, truncates: bool, stops: bool, exits: bool,
    publishes: nat, drops: seq<Item>, loses: nat)

  function Only(w: Worker): Effect {
    Effect(w, false, false, false, false, false, 0, [], 0)
  }

  /** A worker in the middle of a batch: the flags first, then the next item. A next scan adds the bytes of
      every item before it goes on to the next (`publish`), a first scan those of a whole chunk at its end.
      Under a stop the rest of the batch is given up; a fault gives up the bytes not yet added as well. */
  function Look1(s: State, w: Worker, publish: bool): Effect
    requires w.pc.Scanning?
  {
    var rest := w.pc.rest;
    if rest == [] then Only(w.(pc := Publishing))
    else if Halted(s) then Only(w.(pc := Publishing)).(drops := rest, loses := Bytes(rest))
    else
      var item := rest[0];
      var added := if publish then w.covered else 0;
      var due := w.covered - added + item.bytes;
      var looked := w.(seen := w.seen + [item]);
      if item.outcome.Fault? then
        Only(looked.(pc := Leaving(true), covered := 0)).(publishes := added, drops := rest[1..],
            loses := due + Bytes(rest[1..]))
      else
        var pc := if item.outcome.Hit? then Reserving(item, rest[1..]) else Scanning(rest[1..]);
        Only(looked.(pc := pc, covered := due)).(publishes := added)
  }

  /** The slot that fills the results, and every slot refused after it, raise both flags. */
  function Reserve1(c: Config, s: State, w: Worker): Effect
    requires w.pc.Reserving?
  {
    if s.accepted + 1 < c.maxResults then
      Only(w.(pc := Scanning(w.pc.rest), found := w.found + [w.pc.item])).(reserves := true)
    else Only(w.(pc := Truncating(w.pc.item, w.pc.rest, s.accepted < c.maxResults))).(reserves := true)
  }

  function Act(c: Config, s: State, w: Worker, e: Event): Effect
    requires !e.Cancel? && e.i < |s.workers| && w == s.workers[e.i] && Enabled(c, s, e)
  {
    match e
    case Check(_) => Only(w.(pc := if Halted(s) then Leaving(false) else Claiming))
    case Claim(_) =>
      (if s.next < |c.batches| then
         Only(w.(pc := Scanning(c.batches[s.next].items), covered := c.batches[s.next].lump))
       else Only(w.(pc := Leaving(false)))).(claims := true)
    case Look(_, publish) => Look1(s, w, publish)
    case Reserve(_) => Reserve1(c, s, w)
    case FlagTruncated(_) => Only(w.(pc := Stopping(w.pc.item, w.pc.rest, w.pc.granted))).(truncates := true)
    case FlagStop(_) =>
      Only(w.(pc := Scanning(w.pc.rest), found := if w.pc.granted
          then w.found + [w.pc.item] else w.found)).(stops := true)
    case Publish(_) => Only(w.(pc := Reporting, covered := 0)).(publishes := w.covered)
    case Deliver(_) =>
      if w.pc.Reporting? then Only(w.(pc := Idle)) else Only(w.(pc := Exited(w.pc.failed))).(exits := true)
  }

  /** The shared state after an effect of worker `i`. */
  function Commit(s: State, i: nat, d: Effect): State
    requires i < |s.workers|
  {
    State(
      if d.claims then s.next + 1 else s.next,
      if d.reserves then s.accepted + 1 else s.accepted,
      s.truncated || d.truncates, s.stop || d.stops, s.cancelled,
      s.bytes + d.publishes,
      if d.exits then s.completed + 1 else s.completed,
      s.workers[i := d.worker],
      s.abandoned + multiset(d.drops), s.lost + d.loses)
  }

  function Apply(c: Config, s: State, e: Event): State
    requires Enabled(c, s, e)
  {
    if e.Cancel? then s.(cancelled := true) else Commit(s, e.i, Act(c, s, s.workers[e.i], e))
  }

  // Counting over workers

  function Bytes(items: seq<Item>): nat {
    if items == [] then 0 else items[0].bytes + Bytes(items[1..])
  }

  function Rest(w: Worker): seq<Item> {
    if w.pc.Scanning? || w.pc.Reserving? || w.pc.Truncating? || w.pc.Stopping? then w.pc.rest else []
  }

  /** How often a worker owns item `x`: evaluated, or still to come. */
  function Owned(w: Worker, x: Item): nat {
    multiset(w.seen)[x] + multiset(Rest(w))[x]
  }

  /** Results a worker has kept, or has a slot for. */
  function Granted(w: Worker): nat {
    |w.found| + if (w.pc.Truncating? || w.pc.Stopping?) && w.pc.granted then 1 else 0
  }

  function Hits(w: Worker): nat {
    |HitsOf(w.seen)|
  }

  function Unreserved(w: Worker): nat {
    if w.pc.Reserving? then 1 else 0
  }

  function Unpublished(w: Worker): nat {
    w.covered + Bytes(Rest(w))
  }

  function Gone(w: Worker): nat {
    if w.pc.Exited? then 1 else 0
  }

  function HasFailed(w: Worker): nat {
    if (w.pc.Leaving? || w.pc.Exited?) && w.pc.failed then 1 else 0
  }

  function HitsOf(items: seq<Item>): seq<Item> {
    if items == [] then []
    else HitsOf(items[..|items| - 1]) + if items[|items| - 1].outcome.Hit? then [items[|items| - 1]] else []
  }

  function Flat(batches: seq<Batch>): seq<Item> {
    if batches == [] then [] else Flat(batches[..|batches| - 1]) + batches[|batches| - 1].items
  }

  function BatchBytes(batches: seq<Batch>): nat {
    if batches == [] then 0
    else BatchBytes(batches[..|batches| - 1]) + batches[|batches| - 1].lump + Bytes(batches[|batches| - 1].items)
  }

  function Claimed(c: Config, s: State): seq<Batch> {
    c.batches[..if s.next < |c.batches| then s.next else |c.batches|]
  }

  lemma OneMoreClaimed(c: Config, s: State)
    ensures s.next < |c.batches| ==>
              Claimed(c, s.(next := s.next + 1)) == Claimed(c, s) + [c.batches[s.next]]
    ensures |c.batches| <= s.next ==> Claimed(c, s.(next := s.next + 1)) == Claimed(c, s)
  {
  }

  // The invariants, one by one: what an event does to its worker, then what it does to the whole

  /** Result slots: as many results are kept, or about to be, as slots were taken, up to the limit. */
  ghost predicate SlotsAreUsed(c: Config, s: State) {
    Sum(s.workers, Granted) == if s.accepted < c.maxResults then s.accepted else c.maxResults
  }

  lemma WorkersUseSlots(c: Config, s: State, w: Worker, e: Event)
    requires !e.Cancel? && e.i < |s.workers| && w == s.workers[e.i] && Enabled(c, s, e)
    ensures var d := Act(c, s, w, e);
            Granted(d.worker) == Granted(w) + if d.reserves && s.accepted < c.maxResults then 1 else 0
  {
  }

  lemma SlotsStayUsed(c: Config, s: State, i: nat, d: Effect)
    requires i < |s.workers| && SlotsAreUsed(c, s)
    requires Granted(d.worker) == Granted(s.workers[i]) + if d.reserves && s.accepted < c.maxResults then 1 else 0
    ensures SlotsAreUsed(c, Commit(s, i, d))
  {
    SumUpdate(s.workers, Granted, i, d.worker);
  }

  /** Every hit evaluated takes exactly one slot, granted or not. */
  ghost predicate HitsAreCounted(s: State) {
    Sum(s.workers, Hits) == s.accepted + Sum(s.workers, Unreserved)
  }

  lemma HitsOfOneMore(items: seq<Item>, x: Item)
    ensures HitsOf(items + [x]) == HitsOf(items) + if x.outcome.Hit? then [x] else []
  {
  }

  lemma WorkersReserveHits(c: Config, s: State, w: Worker, e: Event)
    requires !e.Cancel? && e.i < |s.workers| && w == s.workers[e.i] && Enabled(c, s, e)
    ensures var d := Act(c, s, w, e);
            Hits(d.worker) + Unreserved(w) == Hits(w) + Unreserved(d.worker) + if d.reserves then 1 else 0
  {
  }

  lemma HitsStayCounted(s: State, i: nat, d: Effect)
    requires i < |s.workers| && HitsAreCounted(s)
    requires var w := s.workers[i];
             Hits(d.worker) + Unreserved(w) == Hits(w) + Unreserved(d.worker) + if d.reserves then 1 else 0
    ensures HitsAreCounted(Commit(s, i, d))
  {
    SumUpdate(s.workers, Hits, i, d.worker);
    SumUpdate(s.workers, Unreserved, i, d.worker);
  }

  /** The result a worker is in the middle of keeping. */
  function InHand(w: Worker): seq<Item> {
    if w.pc.Reserving? || ((w.pc.Truncating? || w.pc.Stopping?) && w.pc.granted) then [w.pc.item] else []
  }

  function Kept(w: Worker): seq<Item> {
    w.found + InHand(w)
  }

  function KeptTimes(w: Worker, x: Item): nat {
    multiset(Kept(w))[x]
  }

  function HitTimes(w: Worker, x: Item): nat {
    multiset(HitsOf(w.seen))[x]
  }

  /** Whatever is kept was evaluated and was a hit, and no less often. */
  ghost predicate KeptAreHits(s: State, x: Item) {
    Sum(s.workers, w => KeptTimes(w, x)) <= Sum(s.workers, w => HitTimes(w, x))
  }

  /** An event evaluates nothing and keeps as much or one result less, or it evaluates one item and keeps
      it exactly if it is a hit. */
  lemma WorkersKeepWhatTheyEvaluate(c: Config, s: State, w: Worker, e: Event)
    requires !e.Cancel? && e.i < |s.workers| && w == s.workers[e.i] && Enabled(c, s, e)
    ensures var d := Act(c, s, w, e).worker;
            || (d.seen == w.seen && Kept(d) <= Kept(w))
            || (e.Look? && Rest(w) != [] && d.seen == w.seen + [Rest(w)[0]]
                && Kept(d) == Kept(w) + if Rest(w)[0].outcome.Hit? then [Rest(w)[0]] else [])
  {
  }

  lemma CountOfConcat<T>(a: seq<T>, b: seq<T>, x: T)
    ensures multiset(a + b)[x] == multiset(a)[x] + multiset(b)[x]
  {
  }

  lemma PrefixIsContained<T>(a: seq<T>, b: seq<T>, x: T)
    requires a <= b
    ensures multiset(a)[x] <= multiset(b)[x]
  {
    assert b == a + b[|a|..];
  }

  lemma WorkersKeepHits(c: Config, s: State, w: Worker, e: Event, x: Item)
    requires !e.Cancel? && e.i < |s.workers| && w == s.workers[e.i] && Enabled(c, s, e)
    ensures var d := Act(c, s, w, e).worker;
            KeptTimes(d, x) + HitTimes(w, x) <= KeptTimes(w, x) + HitTimes(d, x)
  {
    var d := Act(c, s, w, e).worker;
    WorkersKeepWhatTheyEvaluate(c, s, w, e);
    if d.seen == w.seen {
      PrefixIsContained(Kept(d), Kept(w), x);
    } else {
      HitsOfOneMore(w.seen, Rest(w)[0]);
    }
  }

  lemma KeptStayHits(s: State, i: nat, d: Effect, x: Item)
    requires i < |s.workers| && KeptAreHits(s, x)
    requires KeptTimes(d.worker, x) + HitTimes(s.workers[i], x) <= KeptTimes(s.workers[i], x) + HitTimes(d.worker, x)
    ensures KeptAreHits(Commit(s, i, d), x)
  {
    SumUpdate(s.workers, w => KeptTimes(w, x), i, d.worker);
    SumUpdate(s.workers, w => HitTimes(w, x), i, d.worker);
  }

  predicate Flagging(w: Worker) {
    w.pc.Truncating? || w.pc.Stopping?
  }

  /** The flags: set only once the limit is reached, and always about to be set after that. */
  ghost predicate FlagsAreSound(c: Config, s: State) {
    && (s.truncated ==> c.maxResults <= s.accepted)
    && (s.stop ==> s.truncated)
    && (forall i | 0 <= i < |s.workers| ::
          && (Flagging(s.workers[i]) ==> c.maxResults <= s.accepted)
          && (s.workers[i].pc.Stopping? ==> s.truncated))
    && (c.maxResults <= s.accepted && !s.stop ==> exists i :: 0 <= i < |s.workers| && Flagging(s.workers[i]))
  }

  lemma FlagsStaySound(c: Config, s: State, e: Event)
    requires Enabled(c, s, e) && 0 < c.maxResults && FlagsAreSound(c, s)
    ensures FlagsAreSound(c, Apply(c, s, e))
  {
    if !e.Cancel? {
      var t := Apply(c, s, e);
      var v, w := s.workers[e.i], t.workers[e.i];
      assert Flagging(w) ==> c.maxResults <= t.accepted;
      assert w.pc.Stopping? ==> t.truncated;
      assert s.truncated || t.truncated ==> c.maxResults <= t.accepted;
      if c.maxResults <= t.accepted && !t.stop {
        if c.maxResults <= s.accepted {
          var i :| 0 <= i < |s.workers| && Flagging(s.workers[i]);
          assert Flagging(t.workers[i]);
        } else {
          assert Flagging(w);
        }
      }
    }
  }

  /** Workers leave, and items are given up, for a reason. */
  ghost predicate LeavingIsJustified(c: Config, s: State) {
    && (s.abandoned != multiset{} || 0 < s.lost ==> Halted(s) || 0 < Sum(s.workers, HasFailed))
    && (forall i | 0 <= i < |s.workers| :: Leaves(s.workers[i]) ==> Halted(s) || |c.batches| <= s.next)
  }

  predicate Leaves(w: Worker) {
    (w.pc.Leaving? || w.pc.Exited?) && !w.pc.failed
  }

  lemma WorkersLeaveForAReason(c: Config, s: State, w: Worker, e: Event)
    requires !e.Cancel? && e.i < |s.workers| && w == s.workers[e.i] && Enabled(c, s, e)
    ensures var d := Act(c, s, w, e);
            && HasFailed(w) <= HasFailed(d.worker)
            && (d.drops != [] || 0 < d.loses ==> Halted(s) || HasFailed(d.worker) == 1)
            && (Leaves(d.worker) ==> Leaves(w) || Halted(s) || |c.batches| <= s.next)
  {
  }

  lemma LeavingStaysJustified(c: Config, s: State, i: nat, d: Effect)
    requires i < |s.workers| && LeavingIsJustified(c, s)
    requires HasFailed(s.workers[i]) <= HasFailed(d.worker)
    requires d.drops != [] || 0 < d.loses ==> Halted(s) || HasFailed(d.worker) == 1
    requires Leaves(d.worker) ==> Leaves(s.workers[i]) || Halted(s) || |c.batches| <= s.next
    ensures LeavingIsJustified(c, Commit(s, i, d))
  {
    SumUpdate(s.workers, HasFailed, i, d.worker);
    SumHas(s.workers[i := d.worker], HasFailed, i);
    if d.drops == [] {
      assert s.abandoned + multiset(d.drops) == s.abandoned;
    }
  }

  /** The draining thread has counted exactly the workers that are gone. */
  ghost predicate DrainIsExact(c: Config, s: State) {
    |s.workers| == c.workers && s.completed == Sum(s.workers, Gone)
  }

  lemma WorkersExitWhenDrained(c: Config, s: State, w: Worker, e: Event)
    requires !e.Cancel? && e.i < |s.workers| && w == s.workers[e.i] && Enabled(c, s, e)
    ensures var d := Act(c, s, w, e); Gone(d.worker) == Gone(w) + if d.exits then 1 else 0
  {
  }

  lemma DrainStaysExact(c: Config, s: State, i: nat, d: Effect)
    requires i < |s.workers| && DrainIsExact(c, s)
    requires Gone(d.worker) == Gone(s.workers[i]) + if d.exits then 1 else 0
    ensures DrainIsExact(c, Commit(s, i, d))
  {
    SumUpdate(s.workers, Gone, i, d.worker);
  }

  predicate Tidy(w: Worker) {
    w.covered == 0 || w.pc.Scanning? || w.pc.Reserving? || w.pc.Truncating? || w.pc.Stopping? || w.pc.Publishing?
  }

  /** Bytes are published, pending or lost. */
  ghost predicate BytesAreAccounted(c: Config, s: State) {
    && s.bytes + Sum(s.workers, Unpublished) + s.lost == BatchBytes(Claimed(c, s))
    && (forall i | 0 <= i < |s.workers| :: Tidy(s.workers[i]))
  }

  /** The bytes an event brings in by claiming a batch. */
  function ClaimedBytes(c: Config, s: State, d: Effect): nat {
    if d.claims && s.next < |c.batches| then c.batches[s.next].lump + Bytes(c.batches[s.next].items) else 0
  }

  lemma WorkersAccountForBytes(c: Config, s: State, w: Worker, e: Event)
    requires !e.Cancel? && e.i < |s.workers| && w == s.workers[e.i] && Enabled(c, s, e) && Tidy(w)
    ensures var d := Act(c, s, w, e);
            && Tidy(d.worker)
            && d.publishes + Unpublished(d.worker) + d.loses == Unpublished(w) + ClaimedBytes(c, s, d)
  {
  }

  lemma BytesStayAccounted(c: Config, s: State, i: nat, d: Effect)
    requires i < |s.workers| && BytesAreAccounted(c, s) && Tidy(d.worker)
    requires d.publishes + Unpublished(d.worker) + d.loses == Unpublished(s.workers[i]) + ClaimedBytes(c, s, d)
    ensures BytesAreAccounted(c, Commit(s, i, d))
  {
    SumUpdate(s.workers, Unpublished, i, d.worker);
    BytesOfTheClaimed(c, s, d);
  }

  lemma BytesOfTheClaimed(c: Config, s: State, d: Effect)
    ensures BatchBytes(Claimed(c, if d.claims then s.(next := s.next + 1) else s))
            == BatchBytes(Claimed(c, s)) + ClaimedBytes(c, s, d)
  {
    OneMoreClaimed(c, s);
    if s.next < |c.batches| {
      var before := Claimed(c, s);
      assert (before + [c.batches[s.next]])[..|before|] == before;
    }
  }

  /** Conservation: every claimed item is in exactly one place. */
  ghost predicate Conserved(c: Config, s: State, x: Item) {
    Sum(s.workers, w => Owned(w, x)) + s.abandoned[x] == multiset(Flat(Claimed(c, s)))[x]
  }

  /** How many times an event brings in item `x` by claiming a batch. */
  function ClaimedTimes(c: Config, s: State, d: Effect, x: Item): nat {
    if d.claims && s.next < |c.batches| then multiset(c.batches[s.next].items)[x] else 0
  }

  lemma TakingOneConserves(seen: seq<Item>, rest: seq<Item>, x: Item)
    requires rest != []
    ensures multiset(seen + [rest[0]])[x] + multiset(rest[1..])[x] == multiset(seen)[x] + multiset(rest)[x]
  {
    assert rest == [rest[0]] + rest[1..];
    CountOfConcat([rest[0]], rest[1..], x);
    CountOfConcat(seen, [rest[0]], x);
  }

  /** What a look does with the rest of a batch: nothing, or it drops it, or it takes one item and keeps or drops
      what follows. */
  ghost predicate Takes(w: Worker, d: Effect) {
    || (d.worker.seen == w.seen && Rest(d.worker) == Rest(w) && d.drops == [])
    || (d.worker.seen == w.seen && Rest(d.worker) == [] && d.drops == Rest(w))
    || (Rest(w) != [] && d.worker.seen == w.seen + [Rest(w)[0]]
        && (Rest(d.worker), d.drops) in {(Rest(w)[1..], []), ([], Rest(w)[1..])})
  }

  lemma LookingTakes(s: State, w: Worker, publish: bool)
    requires w.pc.Scanning?
    ensures Takes(w, Look1(s, w, publish))
  {
  }

  lemma TakingConserves(w: Worker, d: Effect, x: Item)
    requires Takes(w, d)
    ensures Owned(d.worker, x) + multiset(d.drops)[x] == Owned(w, x)
  {
    if d.worker.seen != w.seen {
      TakingOneConserves(w.seen, Rest(w), x);
    }
  }

  /** Every other event of a worker but a claim leaves what it owns alone. */
  lemma OthersConserve(c: Config, s: State, w: Worker, e: Event)
    requires !e.Cancel? && !e.Look? && !e.Claim?
    requires e.i < |s.workers| && w == s.workers[e.i] && Enabled(c, s, e)
    ensures var d := Act(c, s, w, e);
            d.worker.seen == w.seen && Rest(d.worker) == Rest(w) && d.drops == [] && !d.claims
  {
  }

  lemma WorkersConserve(c: Config, s: State, w: Worker, e: Event, x: Item)
    requires !e.Cancel? && e.i < |s.workers| && w == s.workers[e.i] && Enabled(c, s, e)
    ensures var d := Act(c, s, w, e);
            Owned(d.worker, x) + multiset(d.drops)[x] == Owned(w, x) + ClaimedTimes(c, s, d, x)
  {
    if e.Look? {
      var d := Look1(s, w, e.publish);
      assert Owned(d.worker, x) + multiset(d.drops)[x] == Owned(w, x) by {
        LookingTakes(s, w, e.publish);
        TakingConserves(w, d, x);
      }
    } else if !e.Claim? {
      OthersConserve(c, s, w, e);
    }
  }

  lemma TimesOfTheClaimed(c: Config, s: State, d: Effect, x: Item)
    ensures multiset(Flat(Claimed(c, if d.claims then s.(next := s.next + 1) else s)))[x]
            == multiset(Flat(Claimed(c, s)))[x] + ClaimedTimes(c, s, d, x)
  {
    OneMoreClaimed(c, s);
    if s.next < |c.batches| {
      var before := Claimed(c, s);
      assert (before + [c.batches[s.next]])[..|before|] == before;
    }
  }

  lemma StaysConserved(c: Config, s: State, i: nat, d: Effect, x: Item)
    requires i < |s.workers| && Conserved(c, s, x)
    requires Owned(d.worker, x) + multiset(d.drops)[x] == Owned(s.workers[i], x) + ClaimedTimes(c, s, d, x)
    ensures Conserved(c, Commit(s, i, d), x)
  {
    SumUpdate(s.workers, w => Owned(w, x), i, d.worker);
    TimesOfTheClaimed(c, s, d, x);
  }

  // The whole invariant

  ghost predicate Inv(c: Config, s: State) {
    && SlotsAreUsed(c, s) && HitsAreCounted(s) && FlagsAreSound(c, s)
    && LeavingIsJustified(c, s) && DrainIsExact(c, s) && BytesAreAccounted(c, s)
  }

  /** The part of the invariant that follows one item through the scan. */
  ghost predicate Follows(c: Config, s: State, x: Item) {
    Conserved(c, s, x) && KeptAreHits(s, x)
  }

  lemma StepKeepsInv(c: Config, s: State, e: Event)
    requires 0 < c.maxResults && Enabled(c, s, e) && Inv(c, s)
    ensures Inv(c, Apply(c, s, e))
  {
    FlagsStaySound(c, s, e);
    if !e.Cancel? {
      var w := s.workers[e.i];
      var d := Act(c, s, w, e);
      WorkersUseSlots(c, s, w, e);
      SlotsStayUsed(c, s, e.i, d);
      WorkersReserveHits(c, s, w, e);
      HitsStayCounted(s, e.i, d);
      WorkersLeaveForAReason(c, s, w, e);
      LeavingStaysJustified(c, s, e.i, d);
      WorkersExitWhenDrained(c, s, w, e);
      DrainStaysExact(c, s, e.i, d);
      WorkersAccountForBytes(c, s, w, e);
      BytesStayAccounted(c, s, e.i, d);
    }
  }

  lemma StepFollows(c: Config, s: State, e: Event, x: Item)
    requires Enabled(c, s, e) && Follows(c, s, x)
    ensures Follows(c, Apply(c, s, e), x)
  {
    if !e.Cancel? {
      var w := s.workers[e.i];
      var d := Act(c, s, w, e);
      WorkersConserve(c, s, w, e, x);
      StaysConserved(c, s, e.i, d, x);
      WorkersKeepHits(c, s, w, e, x);
      KeptStayHits(s, e.i, d, x);
    }
  }

  lemma StartSatisfiesInv(c: Config)
    requires 0 < c.maxResults
    ensures Inv(c, Start(c))
  {
    var ws := Start(c).workers;
    SumIs(ws, Granted, 0);
    SumIs(ws, Hits, 0);
    SumIs(ws, Unreserved, 0);
    SumIs(ws, HasFailed, 0);
    SumIs(ws, Gone, 0);
    SumIs(ws, Unpublished, 0);
    assert Claimed(c, Start(c)) == [];
  }

  lemma StartFollows(c: Config, x: Item)
    ensures Follows(c, Start(c), x)
  {
    var ws := Start(c).workers;
    SumIs(ws, w => Owned(w, x), 0);
    SumIs(ws, w => KeptTimes(w, x), 0);
    SumIs(ws, w => HitTimes(w, x), 0);
    assert Claimed(c, Start(c)) == [];
  }

  /** The state a schedule leads to, if each of its events is possible when it happens. */
  function Run(c: Config, events: seq<Event>): Option<State> {
    if events == [] then Some(Start(c))
    else
      var before := Run(c, events[..|events| - 1]);
      if before.Some? && Enabled(c, before.value, events[|events| - 1])
      then Some(Apply(c, before.value, events[|events| - 1])) else None
  }

  lemma RunOneMore(c: Config, events: seq<Event>, e: Event)
    ensures Run(c, events + [e])
            == var before := Run(c, events);
               if before.Some? && Enabled(c, before.value, e) then Some(Apply(c, before.value, e)) else None
  {
  }

  function AboutToClaim(w: Worker): nat {
    if w.pc.Claiming? then 1 else 0
  }

  /** Only a worker that passed its check before the halt claims another batch. */
  lemma HaltedClaimsNoMore(c: Config, s: State, e: Event)
    requires Enabled(c, s, e) && Halted(s)
    ensures var t := Apply(c, s, e);
            t.next + Sum(t.workers, AboutToClaim) <= s.next + Sum(s.workers, AboutToClaim)
  {
    if !e.Cancel? {
      var d := Act(c, s, s.workers[e.i], e);
      SumUpdate(s.workers, AboutToClaim, e.i, d.worker);
    }
  }

  lemma HaltedEvaluatesNothing(c: Config, s: State, e: Event)
    requires Enabled(c, s, e) && Halted(s)
    ensures var t := Apply(c, s, e);
            && Halted(t) && |t.workers| == |s.workers|
            && forall i :: 0 <= i < |s.workers| ==> t.workers[i].seen == s.workers[i].seen
  {
  }

  /** After a stop or a cancellation no worker evaluates another position, and only those that were about to claim
      a batch still claim one, whatever happens next. */
  lemma {:induction false} HaltsAreHeeded(c: Config, events: seq<Event>, more: seq<Event>)
    requires Run(c, events + more).Some?
    ensures Run(c, events).Some?
    ensures Halted(Run(c, events).value) ==>
              var s, t := Run(c, events).value, Run(c, events + more).value;
              && Halted(t) && |t.workers| == |s.workers|
              && (forall i :: 0 <= i < |s.workers| ==> t.workers[i].seen == s.workers[i].seen)
              && t.next + Sum(t.workers, AboutToClaim) <= s.next + Sum(s.workers, AboutToClaim)
    decreases |more|
  {
    if more == [] {
      assert events + more == events;
    } else {
      var init, e := more[..|more| - 1], more[|more| - 1];
      assert events + more == (events + init) + [e];
      RunOneMore(c, events + init, e);
      HaltsAreHeeded(c, events, init);
      if Halted(Run(c, events).value) {
        HaltedEvaluatesNothing(c, Run(c, events + init).value, e);
        HaltedClaimsNoMore(c, Run(c, events + init).value, e);
      }
    }
  }

  lemma {:induction false} RunsSatisfyInv(c: Config, events: seq<Event>)
    requires 0 < c.maxResults && Run(c, events).Some?
    ensures Inv(c, Run(c, events).value)
  {
    if events == [] {
      StartSatisfiesInv(c);
    } else {
      var init := events[..|events| - 1];
      RunsSatisfyInv(c, init);
      StepKeepsInv(c, Run(c, init).value, events[|events| - 1]);
    }
  }

  lemma {:induction false} RunsFollow(c: Config, events: seq<Event>, x: Item)
    requires Run(c, events).Some?
    ensures Follows(c, Run(c, events).value, x)
  {
    if events == [] {
      StartFollows(c, x);
    } else {
      var init := events[..|events| - 1];
      RunsFollow(c, init, x);
      StepFollows(c, Run(c, init).value, events[|events| - 1], x);
    }
  }

  // No schedule is stuck, and every schedule ends

  ghost predicate Finished(s: State) {
    forall i | 0 <= i < |s.workers| :: s.workers[i].pc.Exited?
  }

  lemma {:induction false} NotAllGone(ws: seq<Worker>, i: nat)
    requires i < |ws| && !ws[i].pc.Exited?
    ensures Sum(ws, Gone) < |ws|
    decreases |ws|
  {
    var n := |ws| - 1;
    if i < n {
      NotAllGone(ws[..n], i);
    } else {
      AtMostOneEach(ws[..n]);
    }
  }

  lemma {:induction false} AtMostOneEach(ws: seq<Worker>)
    ensures Sum(ws, Gone) <= |ws|
  {
    if ws != [] {
      AtMostOneEach(ws[..|ws| - 1]);
    }
  }

  /** The event a worker is about to take. */
  function NextEvent(w: Worker, i: nat): Event
    requires !w.pc.Exited?
  {
    match w.pc
    case Idle => Check(i)
    case Claiming => Claim(i)
    case Scanning(_) => Look(i, false)
    case Reserving(_, _) => Reserve(i)
    case Truncating(_, _, _) => FlagTruncated(i)
    case Stopping(_, _, _) => FlagStop(i)
    case Publishing => Publish(i)
    case Reporting => Deliver(i)
    case Leaving(_) => Deliver(i)
  }

  /** A worker that has not left is never blocked for good: the thread it reports to is still receiving,
      because it leaves only after one final event of every worker. */
  lemma NoWorkerIsLeftBlocked(c: Config, s: State, i: nat)
    requires Inv(c, s) && i < |s.workers| && !s.workers[i].pc.Exited?
    ensures s.completed < c.workers
    ensures Enabled(c, s, NextEvent(s.workers[i], i))
  {
    NotAllGone(s.workers, i);
  }

  lemma DrainingEndsWithTheLastWorker(c: Config, s: State)
    requires Inv(c, s)
    ensures s.completed == c.workers <==> Finished(s)
  {
    if i :| 0 <= i < |s.workers| && !s.workers[i].pc.Exited? {
      NotAllGone(s.workers, i);
    } else {
      SumIs(s.workers, Gone, 1);
    }
  }

  function Cost(w: Worker): nat {
    match w.pc
    case Idle => 4
    case Claiming => 3
    case Scanning(rest) => 4 * |rest| + 7
    case Reserving(_, rest) => 4 * |rest| + 10
    case Truncating(_, rest, _) => 4 * |rest| + 9
    case Stopping(_, rest, _) => 4 * |rest| + 8
    case Publishing => 6
    case Reporting => 5
    case Leaving(_) => 1
    case Exited(_) => 0
  }

  function BatchCost(batches: seq<Batch>): nat {
    if batches == [] then 0 else 4 * |batches[0].items| + 5 + BatchCost(batches[1..])
  }

  /** A bound on the events still to come. */
  ghost function Remaining(c: Config, s: State): nat {
    Sum(s.workers, Cost) + (if s.next < |c.batches| then BatchCost(c.batches[s.next..]) else 0)
    + if s.cancelled then 0 else 1
  }

  lemma WorkersPay(c: Config, s: State, w: Worker, e: Event)
    requires !e.Cancel? && e.i < |s.workers| && w == s.workers[e.i] && Enabled(c, s, e)
    ensures var d := Act(c, s, w, e);
            Cost(d.worker) < Cost(w) + if d.claims && s.next < |c.batches| then 4 * |c.batches[s.next].items| + 5 else 0
  {
  }

  lemma EveryEventCosts(c: Config, s: State, e: Event)
    requires Enabled(c, s, e)
    ensures Remaining(c, Apply(c, s, e)) < Remaining(c, s)
  {
    if !e.Cancel? {
      var d := Act(c, s, s.workers[e.i], e);
      WorkersPay(c, s, s.workers[e.i], e);
      SumUpdate(s.workers, Cost, e.i, d.worker);
      if s.next < |c.batches| {
        assert c.batches[s.next..][1..] == c.batches[s.next + 1..];
      }
    }
  }

  /** Every schedule is finite: no run has more events than the work it started with allows. */
  lemma {:induction false} EveryScheduleEnds(c: Config, events: seq<Event>)
    requires Run(c, events).Some?
    ensures |events| + Remaining(c, Run(c, events).value) <= 4 * c.workers + BatchCost(c.batches) + 1
  {
    if events == [] {
      SumIs(Start(c).workers, Cost, 4);
      assert c.batches[0..] == c.batches;
    } else {
      var init := events[..|events| - 1];
      EveryScheduleEnds(c, init);
      EveryEventCosts(c, Run(c, init).value, events[|events| - 1]);
    }
  }
}
