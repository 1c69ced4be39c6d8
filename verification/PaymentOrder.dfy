/** The serial order of a run, stated for whole runs, and what it says about a payment's final status. */
module PaymentOrder {
  import opened Options
  import opened PaymentTables
  import opened PaymentFlow
  import opened PaymentSystem
  import opened PaymentSafety
  import opened PaymentSerial

  ghost function CommittedTxs(log: seq<Entry>): seq<Tx> {
    if log == [] then []
    else
      var last := log[|log| - 1];
      CommittedTxs(log[..|log| - 1]) + if last.committed then [last.tx] else []
  }

  ghost function SerialOrder(t: Tables, steps: seq<Step>): seq<Tx> {
    CommittedTxs(Trace(Initial(t), steps).log)
  }

  lemma {:induction false} ReplayIsSerial(t: Tables, log: seq<Entry>)
    ensures Replay(t, log) == RunSerially(t, CommittedTxs(log))
    ensures ReplaySucceeds(t, log) ==> AllCommit(t, CommittedTxs(log))
  {
    if log != [] {
      var n := |log| - 1;
      ReplayIsSerial(t, log[..n]);
      var txs := CommittedTxs(log);
      if log[n].committed {
        assert txs[..|txs| - 1] == CommittedTxs(log[..n]) && txs[|txs| - 1] == log[n].tx;
      } else {
        assert txs == CommittedTxs(log[..n]);
      }
    }
  }

  lemma {:induction false} TraceIsSerial(t: Tables, steps: seq<Step>)
    requires Consistent(t)
    ensures Serial(t, Run(Initial(t), steps), Trace(Initial(t), steps))
  {
    if steps != [] {
      var before := steps[..|steps| - 1];
      TraceIsSerial(t, before);
      RunIsSafe(t, before);
      StepKeepsSerial(t, Run(Initial(t), before), Trace(Initial(t), before), steps[|steps| - 1]);
    }
  }

  /**
   The tables after any interleaving are those of running the committed transactions one at a
   time in the serial order, and there every one of them commits.
   */
  lemma Serializable(t: Tables, steps: seq<Step>)
    requires Consistent(t)
    ensures AllCommit(t, SerialOrder(t, steps))
    ensures RunSerially(t, SerialOrder(t, steps)) == Run(Initial(t), steps).tables
  {
    TraceIsSerial(t, steps);
    ReplayIsSerial(t, Trace(Initial(t), steps).log);
  }

  // ----- the order holds exactly the commits of the run, each once -----

  ghost predicate CommitsAt(s: System, steps: seq<Step>, k: nat, w: nat, tx: Tx)
    requires k < |steps|
  {
    var now := Run(s, steps[..k]);
    && steps[k].Proceed? && steps[k].worker == w && w in now.workers
    && Commits(now.tables, now.workers[w]) && TxOf(now.workers[w]) == tx
  }

  ghost predicate CommitsIn(s: System, steps: seq<Step>, w: nat, tx: Tx) {
    exists k: nat :: k < |steps| && CommitsAt(s, steps, k, w, tx)
  }

  lemma CommitsInGrows(s: System, steps: seq<Step>, w: nat, tx: Tx)
    requires steps != []
    ensures CommitsIn(s, steps, w, tx)
       <==> CommitsIn(s, steps[..|steps| - 1], w, tx) || CommitsAt(s, steps, |steps| - 1, w, tx)
  {
    var n := |steps| - 1;
    forall k: nat | k < n
      ensures CommitsAt(s, steps[..n], k, w, tx) <==> CommitsAt(s, steps, k, w, tx)
    {
      assert steps[..n][..k] == steps[..k];
    }
  }

  ghost predicate InLog(log: seq<Entry>, w: nat, tx: Tx) {
    Entry(w, tx, true) in log
  }

  lemma ExtendKeepsOneEach(t: Tables, s: System, h: History, step: Step)
    requires Serial(t, s, h) && OneEntryEach(h)
    ensures OneEntryEach(Extend(s, h, step))
  {
    if step.Proceed? && step.worker in s.workers {
      assert PlaceFits(t, h, step.worker, s.workers[step.worker]);
    }
  }

  lemma ExtendLogsCommit(t: Tables, s: System, h: History, step: Step, w: nat, tx: Tx)
    requires Serial(t, s, h)
    ensures var commits := step.Proceed? && step.worker == w && w in s.workers
                           && Commits(s.tables, s.workers[w]) && TxOf(s.workers[w]) == tx;
            InLog(Extend(s, h, step).log, w, tx) <==> InLog(h.log, w, tx) || commits
  {
    var h' := Extend(s, h, step);
    if step.Proceed? && step.worker in s.workers {
      assert PlaceFits(t, h, step.worker, s.workers[step.worker]);
      if |h'.log| == |h.log| && h' != h {
        var m := h.marks[step.worker];
        assert forall k :: 0 <= k < |h.log| && k != m ==> h'.log[k] == h.log[k];
        assert h'.log[m] == Entry(step.worker, TxOf(s.workers[step.worker]), true);
      }
    }
  }

  /**
   A transaction stands in the order if and only if some step of the run committed it, and no worker stands
   there twice.
   */
  lemma {:induction false} OrderIsTheCommits(t: Tables, steps: seq<Step>)
    requires Consistent(t)
    ensures OneEntryEach(Trace(Initial(t), steps))
    ensures forall w, tx :: InLog(Trace(Initial(t), steps).log, w, tx) <==> CommitsIn(Initial(t), steps, w, tx)
  {
    if steps != [] {
      var s, before := Initial(t), steps[..|steps| - 1];
      OrderIsTheCommits(t, before);
      TraceIsSerial(t, before);
      ExtendKeepsOneEach(t, Run(s, before), Trace(s, before), steps[|steps| - 1]);
      forall w, tx
        ensures InLog(Trace(s, steps).log, w, tx) <==> CommitsIn(s, steps, w, tx)
      {
        ExtendLogsCommit(t, Run(s, before), Trace(s, before), steps[|steps| - 1], w, tx);
        CommitsInGrows(s, steps, w, tx);
      }
    }
  }

  // ----- where each transaction stands: at its commit, or at a lookup that staged nothing -----

  ghost predicate NeutralReadAt(s: System, steps: seq<Step>, m: nat, w: nat, tx: Tx)
    requires m < |steps|
  {
    var now := Run(s, steps[..m]);
    && steps[m].Proceed? && steps[m].worker == w && w in now.workers
    && ReadsNeutrally(now.tables, now.workers[w], steps[m].choice)
    && tx == DeliverTx(now.workers[w].d, steps[m].choice.uid)
  }

  ghost predicate TakesEffectAt(s: System, steps: seq<Step>, m: nat, entry: Entry) {
    && m < |steps|
    && (NeutralReadAt(s, steps, m, entry.worker, entry.tx)
        || (entry.committed && CommitsAt(s, steps, m, entry.worker, entry.tx)))
  }

  ghost predicate AreThePlaces(s: System, steps: seq<Step>, log: seq<Entry>, places: seq<nat>) {
    && |places| == |log|
    && (forall k :: 0 <= k < |log| ==> TakesEffectAt(s, steps, places[k], log[k]))
    && (forall j, k :: 0 <= j < k < |log| ==> places[j] < places[k])
  }

  lemma EffectStays(s: System, steps: seq<Step>, m: nat, entry: Entry, entry': Entry)
    requires steps != [] && TakesEffectAt(s, steps[..|steps| - 1], m, entry)
    requires entry'.worker == entry.worker && entry'.tx == entry.tx && (entry.committed ==> entry'.committed)
    ensures TakesEffectAt(s, steps, m, entry')
  {
    assert steps[..|steps| - 1][..m] == steps[..m] && steps[..|steps| - 1][m] == steps[m];
  }

  // One step keeps the entries, and appends at most one that takes effect at it.
  lemma ExtendAppends(t: Tables, s: System, h: History, step: Step)
    requires Serial(t, s, h)
    ensures var h' := Extend(s, h, step);
            && |h.log| <= |h'.log| <= |h.log| + 1
            && (forall k :: 0 <= k < |h.log| ==>
                  h'.log[k].worker == h.log[k].worker && h'.log[k].tx == h.log[k].tx
                  && (h.log[k].committed ==> h'.log[k].committed))
            && (|h'.log| > |h.log| ==>
                  var entry := h'.log[|h.log|];
                  && step.Proceed? && step.worker == entry.worker && entry.worker in s.workers
                  && var phase := s.workers[entry.worker];
                     || (ReadsNeutrally(s.tables, phase, step.choice)
                         && entry.tx == DeliverTx(phase.d, step.choice.uid))
                     || (entry.committed && Commits(s.tables, phase) && TxOf(phase) == entry.tx))
  {
    if step.Proceed? && step.worker in s.workers {
      assert PlaceFits(t, h, step.worker, s.workers[step.worker]);
    }
  }

  /**
   The order is the order of effects: each entry takes effect at a step of its own worker, which is its
   commit or a lookup that staged nothing, and these steps follow one another as the entries do.
   */
  lemma {:induction false} OrderIsByEffect(t: Tables, steps: seq<Step>) returns (places: seq<nat>)
    requires Consistent(t)
    ensures AreThePlaces(Initial(t), steps, Trace(Initial(t), steps).log, places)
  {
    places := [];
    if steps != [] {
      var s, n := Initial(t), |steps| - 1;
      var before := OrderIsByEffect(t, steps[..n]);
      TraceIsSerial(t, steps[..n]);
      ExtendAppends(t, Run(s, steps[..n]), Trace(s, steps[..n]), steps[n]);
      var log, log' := Trace(s, steps[..n]).log, Trace(s, steps).log;
      places := before + if |log'| > |log| then [n] else [];
      forall k | 0 <= k < |log|
        ensures TakesEffectAt(s, steps, places[k], log'[k])
      {
        EffectStays(s, steps, before[k], log[k], log'[k]);
      }
    }
  }

  // A commit that changes payments.
  ghost predicate WritesAt(s: System, steps: seq<Step>, m: nat, w: nat, tx: Tx) {
    && m < |steps| && CommitsAt(s, steps, m, w, tx)
    && !Pending(Run(s, steps[..m]).workers[w]).value.change.NoChange?
  }

  lemma {:induction false} EntriesStay(t: Tables, first: seq<Step>, second: seq<Step>, k: nat)
    requires Consistent(t) && k < |Trace(Initial(t), first).log|
    ensures var log, log' := Trace(Initial(t), first).log, Trace(Initial(t), first + second).log;
            && |log| <= |log'| && log'[k].worker == log[k].worker && log'[k].tx == log[k].tx
            && (log[k].committed ==> log'[k].committed)
  {
    if second == [] {
      assert first + second == first;
    } else {
      var s, before := Initial(t), first + second[..|second| - 1];
      assert (first + second)[..|first + second| - 1] == before;
      EntriesStay(t, first, second[..|second| - 1], k);
      TraceIsSerial(t, before);
      ExtendAppends(t, Run(s, before), Trace(s, before), second[|second| - 1]);
    }
  }

  // A writer's entry is appended by its commit.
  lemma WriterAppends(t: Tables, steps: seq<Step>, m: nat, w: nat, tx: Tx)
    requires Consistent(t) && WritesAt(Initial(t), steps, m, w, tx)
    ensures var before, after := Trace(Initial(t), steps[..m]).log, Trace(Initial(t), steps[..m + 1]).log;
            after == before + [Entry(w, tx, true)]
  {
    TraceIsSerial(t, steps[..m]);
    assert steps[..m + 1][..m] == steps[..m];
    var s, h := Run(Initial(t), steps[..m]), Trace(Initial(t), steps[..m]);
    assert PlaceFits(t, h, w, s.workers[w]);
  }

  lemma WriterStands(t: Tables, steps: seq<Step>, m: nat, w: nat, tx: Tx)
    requires Consistent(t) && WritesAt(Initial(t), steps, m, w, tx)
    ensures var i, log := |Trace(Initial(t), steps[..m]).log|, Trace(Initial(t), steps).log;
            i < |log| && log[i] == Entry(w, tx, true)
  {
    WriterAppends(t, steps, m, w, tx);
    assert steps[..m + 1] + steps[m + 1..] == steps;
    EntriesStay(t, steps[..m + 1], steps[m + 1..], |Trace(Initial(t), steps[..m]).log|);
  }

  lemma WriterComesFirst(t: Tables, steps: seq<Step>, m: nat, n: nat, w: nat, tx: Tx)
    requires Consistent(t) && m < n <= |steps| && WritesAt(Initial(t), steps, m, w, tx)
    ensures |Trace(Initial(t), steps[..m]).log| < |Trace(Initial(t), steps[..n]).log|
  {
    WriterAppends(t, steps, m, w, tx);
    assert steps[..m + 1] + steps[m + 1..n] == steps[..n];
    EntriesStay(t, steps[..m + 1], steps[m + 1..n], |Trace(Initial(t), steps[..m]).log|);
  }

  /** Two transactions that write payments stand in the order of their commits. */
  lemma WritersInCommitOrder(t: Tables, steps: seq<Step>, m: nat, n: nat, v: nat, w: nat, tx: Tx, ux: Tx)
    requires Consistent(t) && m < n
    requires WritesAt(Initial(t), steps, m, v, tx) && WritesAt(Initial(t), steps, n, w, ux)
    ensures exists i, j :: 0 <= i < j < |Trace(Initial(t), steps).log|
                           && Trace(Initial(t), steps).log[i] == Entry(v, tx, true)
                           && Trace(Initial(t), steps).log[j] == Entry(w, ux, true)
  {
    WriterStands(t, steps, m, v, tx);
    WriterStands(t, steps, n, w, ux);
    WriterComesFirst(t, steps, m, n, v, tx);
  }

  // ----- the order respects real time -----

  predicate Finished(phase: Phase) {
    phase.Delivered? || phase.Charged?
  }

  lemma FinishedStayFinished(s: System, step: Step, w: nat)
    requires w in s.workers && Finished(s.workers[w])
    ensures w in Next(s, step).workers && Next(s, step).workers[w] == s.workers[w]
  {
  }

  ghost predicate Extends(done: System, log: seq<Entry>, now: System, log': seq<Entry>) {
    && |log| <= |log'|
    && (forall k :: 0 <= k < |log| ==> log'[k].worker == log[k].worker)
    && (forall k :: |log| <= k < |log'| ==> !IsDone(done, log'[k].worker))
    && (forall w :: IsDone(done, w) ==> w in now.workers && now.workers[w] == done.workers[w])
  }

  predicate IsDone(s: System, w: nat) {
    w in s.workers && Finished(s.workers[w])
  }

  lemma {:induction false} LaterEntries(t: Tables, first: seq<Step>, second: seq<Step>)
    requires Consistent(t)
    ensures var s := Initial(t);
            Extends(Run(s, first), Trace(s, first).log, Run(s, first + second), Trace(s, first + second).log)
  {
    if second == [] {
      assert first + second == first;
    } else {
      var s := Initial(t);
      var before, step := first + second[..|second| - 1], second[|second| - 1];
      assert (first + second)[..|first + second| - 1] == before;
      LaterEntries(t, first, second[..|second| - 1]);
      TraceIsSerial(t, before);
      var now := Run(s, before);
      ExtendAppends(t, now, Trace(s, before), step);
      forall w | IsDone(now, w)
        ensures w in Next(now, step).workers && Next(now, step).workers[w] == now.workers[w]
      {
        FinishedStayFinished(now, step, w);
      }
    }
  }

  /** If worker a was done before worker b arrived, a's transaction comes before b's in the order. */
  lemma RealTimeOrder(t: Tables, first: seq<Step>, second: seq<Step>, i: nat, j: nat)
    requires Consistent(t)
    requires var log, done := Trace(Initial(t), first + second).log, Run(Initial(t), first);
             && i < |log| && j < |log|
             && log[i].worker in done.workers && Finished(done.workers[log[i].worker])
             && log[j].worker !in done.workers
    ensures i < j
  {
    TraceIsSerial(t, first);
    LaterEntries(t, first, second);
  }

  // ----- which event decides a payment's status -----

  // The transaction looks the intent's row up to write it, or inserts it.
  predicate Touches(tx: Tx, intent: string) {
    match tx
    case DeliverTx(d, _) => Tracks(d) && d.body.id == Some(intent)
    case ChargeTx(row) => row.intent == intent
  }

  lemma {:induction false} SerialRunConsistent(t: Tables, txs: seq<Tx>)
    requires Consistent(t)
    ensures Consistent(RunSerially(t, txs))
  {
    if txs != [] {
      var before, tx := RunSerially(t, txs[..|txs| - 1]), txs[|txs| - 1];
      SerialRunConsistent(t, txs[..|txs| - 1]);
      match tx
      case DeliverTx(d, uid) =>
        if d.id !in before.events && PlanFor(before, d, uid).Plan? {
          var staged := Staged(PlanFor(before, d, uid).change, Some(EventRowOf(d)));
          if Commit(before, staged).Committed? { CommitKeepsConsistent(before, staged); }
        }
      case ChargeTx(row) =>
        if Commit(before, Staged(Insert(row), None)).Committed? {
          CommitKeepsConsistent(before, Staged(Insert(row), None));
        }
    }
  }

  // A transaction that does not speak of an intent leaves its row alone, and adds none.
  lemma UntouchedStays(t: Tables, tx: Tx, id: Uuid)
    requires Consistent(t) && Succeeds(t, tx)
    requires id in After(t, tx).payments && !Touches(tx, After(t, tx).payments[id].intent)
    ensures id in t.payments && t.payments[id] == After(t, tx).payments[id]
  {
    if tx.DeliverTx? { DeliveryEffect(t, tx.d, tx.uid); }
  }

  lemma {:induction false} LastDeliveryWinsSerially(t: Tables, txs: seq<Tx>, k: nat, id: Uuid)
    requires Consistent(t) && AllCommit(t, txs)
    requires k < |txs| && txs[k].DeliverTx? && Tracks(txs[k].d)
    requires forall j :: k < j < |txs| ==> !Touches(txs[j], txs[k].d.body.id.value)
    requires id in RunSerially(t, txs).payments
    requires RunSerially(t, txs).payments[id].intent == txs[k].d.body.id.value
    ensures Some(RunSerially(t, txs).payments[id].status) == StatusOf(txs[k].d.kind)
    decreases |txs|
  {
    var n := |txs| - 1;
    SerialRunConsistent(t, txs[..n]);
    if k < n {
      UntouchedStays(RunSerially(t, txs[..n]), txs[n], id);
      LastDeliveryWinsSerially(t, txs[..n], k, id);
    } else {
      DeliveryEffect(RunSerially(t, txs[..n]), txs[n].d, txs[n].uid);
    }
  }

  /**
   After any interleaving, a payment's status is the mapping of the last delivery in the serial
   order that speaks of its intent, whenever that delivery is also the last transaction to do so.
   */
  lemma LastInOrderWins(t: Tables, steps: seq<Step>, k: nat, id: Uuid)
    requires Consistent(t)
    requires var txs := SerialOrder(t, steps);
             && k < |txs| && txs[k].DeliverTx? && Tracks(txs[k].d)
             && (forall j :: k < j < |txs| ==> !Touches(txs[j], txs[k].d.body.id.value))
    requires id in Run(Initial(t), steps).tables.payments
    requires Run(Initial(t), steps).tables.payments[id].intent == SerialOrder(t, steps)[k].d.body.id.value
    ensures Some(Run(Initial(t), steps).tables.payments[id].status) == StatusOf(SerialOrder(t, steps)[k].d.kind)
  {
    Serializable(t, steps);
    LastDeliveryWinsSerially(t, SerialOrder(t, steps), k, id);
  }

  // ----- when the event committed last decides -----

  ghost predicate CommitsTracking(s: System, w: nat) {
    w in s.workers && s.workers[w].Committing? && Tracks(s.workers[w].d) && Commits(s.tables, s.workers[w])
  }

  // The delivery has a write of its own to commit, or the row already stands as the event says.
  ghost predicate Decides(s: System, w: nat, id: Uuid)
    requires CommitsTracking(s, w)
  {
    || !s.workers[w].change.NoChange?
    || (id in s.tables.payments && Some(s.tables.payments[id].status) == StatusOf(s.workers[w].d.kind))
  }

  /** Right after its commit an event has set the status if and only if it staged a change or the row has it already. */
  lemma CommitDecides(t: Tables, steps: seq<Step>, w: nat, choice: Choice, id: Uuid)
    requires Consistent(t) && CommitsTracking(Run(Initial(t), steps), w)
    requires var s := Run(Initial(t), steps);
             var after := Next(s, Proceed(w, choice)).tables.payments;
             id in after && after[id].intent == s.workers[w].d.body.id.value
    ensures var s := Run(Initial(t), steps);
            Some(Next(s, Proceed(w, choice)).tables.payments[id].status) == StatusOf(s.workers[w].d.kind)
            <==> Decides(s, w, id)
  {
    RunIsSafe(t, steps);
    var s := Run(Initial(t), steps);
    assert PhaseFits(s.tables, s.workers[w]);
    StepEvolves(s, Proceed(w, choice));
  }

  // The step is the commit of a transaction that speaks of the intent.
  ghost predicate StepTouches(s: System, step: Step, intent: string) {
    && step.Proceed? && step.worker in s.workers && Commits(s.tables, s.workers[step.worker])
    && Touches(TxOf(s.workers[step.worker]), intent)
  }

  lemma UntouchedRow(s: System, step: Step, id: Uuid)
    requires Safe(s) && id in Next(s, step).tables.payments
    requires !StepTouches(s, step, Next(s, step).tables.payments[id].intent)
    ensures id in s.tables.payments && s.tables.payments[id] == Next(s, step).tables.payments[id]
  {
    if step.Proceed? && step.worker in s.workers {
      assert PhaseFits(s.tables, s.workers[step.worker]);
    }
  }

  // Step m of the run is such a commit.
  ghost predicate TouchesAt(s: System, steps: seq<Step>, m: int, intent: string) {
    0 <= m < |steps| && StepTouches(Run(s, steps[..m]), steps[m], intent)
  }

  ghost predicate UntouchedFrom(s: System, steps: seq<Step>, from: nat, intent: string) {
    forall m :: from <= m < |steps| ==> !TouchesAt(s, steps, m, intent)
  }

  lemma UntouchedShrinks(s: System, steps: seq<Step>, from: nat, intent: string)
    requires steps != [] && UntouchedFrom(s, steps, from, intent)
    ensures UntouchedFrom(s, steps[..|steps| - 1], from, intent)
  {
    var n := |steps| - 1;
    forall m | from <= m < n
      ensures !TouchesAt(s, steps[..n], m, intent)
    {
      assert steps[..n][..m] == steps[..m] && !TouchesAt(s, steps, m, intent);
    }
  }

  lemma {:induction false} UntouchedOverRun(t: Tables, steps: seq<Step>, from: nat, id: Uuid)
    requires Consistent(t) && from <= |steps| && id in Run(Initial(t), steps).tables.payments
    requires UntouchedFrom(Initial(t), steps, from, Run(Initial(t), steps).tables.payments[id].intent)
    ensures id in Run(Initial(t), steps[..from]).tables.payments
    ensures Run(Initial(t), steps[..from]).tables.payments[id] == Run(Initial(t), steps).tables.payments[id]
  {
    if from == |steps| {
      assert steps[..from] == steps;
    } else {
      var n := |steps| - 1;
      var intent := Run(Initial(t), steps).tables.payments[id].intent;
      RunIsSafe(t, steps[..n]);
      assert !TouchesAt(Initial(t), steps, n, intent);
      UntouchedRow(Run(Initial(t), steps[..n]), steps[n], id);
      UntouchedShrinks(Initial(t), steps, from, intent);
      UntouchedOverRun(t, steps[..n], from, id);
      assert steps[..n][..from] == steps[..from];
    }
  }

  /**
   At the end of any run a payment's status is that of the event whose commit was the last to speak of its
   intent, if and only if that delivery staged a change or found the row, at its commit, in that status.
   */
  lemma LastCommitDecides(t: Tables, steps: seq<Step>, m: nat, id: Uuid)
    requires Consistent(t) && m < |steps| && steps[m].Proceed?
    requires CommitsTracking(Run(Initial(t), steps[..m]), steps[m].worker)
    requires var end, intent := Run(Initial(t), steps).tables.payments,
                                Run(Initial(t), steps[..m]).workers[steps[m].worker].d.body.id.value;
             id in end && end[id].intent == intent && UntouchedFrom(Initial(t), steps, m + 1, intent)
    ensures var s, w := Run(Initial(t), steps[..m]), steps[m].worker;
            Some(Run(Initial(t), steps).tables.payments[id].status) == StatusOf(s.workers[w].d.kind)
            <==> Decides(s, w, id)
  {
    UntouchedOverRun(t, steps, m + 1, id);
    assert steps[..m + 1][..m] == steps[..m];
    CommitDecides(t, steps[..m], steps[m].worker, steps[m].choice, id);
  }

  // ----- a delivery that found the row in its status -----

  predicate PastCommit(phase: Phase) {
    phase.RollingBack? || phase.Notifying? || phase.Delivered?
  }

  lemma CommitterMoves(s: System, step: Step, w: nat)
    requires w in s.workers && (s.workers[w].Committing? || PastCommit(s.workers[w]))
    ensures w in Next(s, step).workers
    ensures Next(s, step).workers[w] == s.workers[w] || PastCommit(Next(s, step).workers[w])
  {
  }

  // A worker about to commit stays as it is until it does.
  lemma {:induction false} CommitterStays(s: System, steps: seq<Step>, m: nat, w: nat)
    requires m <= |steps| && w in Run(s, steps[..m]).workers && Run(s, steps[..m]).workers[w].Committing?
    ensures w in Run(s, steps).workers
    ensures Run(s, steps).workers[w] == Run(s, steps[..m]).workers[w] || PastCommit(Run(s, steps).workers[w])
  {
    if m == |steps| {
      assert steps[..m] == steps;
    } else {
      var n := |steps| - 1;
      assert steps[..n][..m] == steps[..m];
      CommitterStays(s, steps[..n], m, w);
      CommitterMoves(Run(s, steps[..n]), steps[n], w);
    }
  }

  lemma EvolvesFurther(a: Tables, b: Tables, c: Tables)
    requires Evolves(a, b) && Evolves(b, c)
    ensures Evolves(a, c)
  {
  }

  // From any point on no row goes away, or changes its intent.
  lemma {:induction false} EvolvesFrom(t: Tables, steps: seq<Step>, m: nat)
    requires Consistent(t) && m <= |steps|
    ensures Evolves(Run(Initial(t), steps[..m]).tables, Run(Initial(t), steps).tables)
  {
    if m == |steps| {
      assert steps[..m] == steps;
    } else {
      var n := |steps| - 1;
      var last := Run(Initial(t), steps[..n]);
      assert steps[..n][..m] == steps[..m];
      EvolvesFrom(t, steps[..n], m);
      RunEvolves(Initial(t), steps[..n]);
      StepEvolves(last, steps[n]);
      EvolvesFurther(Run(Initial(t), steps[..m]).tables, last.tables, Next(last, steps[n]).tables);
    }
  }

  // The worker is about to read the payment row of its intent, which stands as its event says.
  ghost predicate FindsItsStatus(s: System, w: nat, id: Uuid) {
    && w in s.workers && s.workers[w].Reading? && Tracks(s.workers[w].d) && id in s.tables.payments
    && s.tables.payments[id].intent == s.workers[w].d.body.id.value
    && Some(s.tables.payments[id].status) == StatusOf(s.workers[w].d.kind)
  }

  lemma StagesNothing(s: System, w: nat, choice: Choice, id: Uuid)
    requires Consistent(s.tables) && FindsItsStatus(s, w, id)
    ensures var s' := Next(s, Proceed(w, choice));
            s'.tables == s.tables && s'.workers[w] == Committing(s.workers[w].d, choice.uid, NoChange)
  {
    LookupIsUnique(s.tables, s.workers[w].d.body.id.value, id);
  }

  // Step r of the run is the read of a delivery that finds the row in its status, and that now commits.
  ghost predicate ReadAndCommits(t: Tables, steps: seq<Step>, r: nat, id: Uuid) {
    && r < |steps| && steps[r].Proceed?
    && FindsItsStatus(Run(Initial(t), steps[..r]), steps[r].worker, id)
    && CommitsTracking(Run(Initial(t), steps), steps[r].worker)
  }

  lemma ReaderAtCommit(t: Tables, steps: seq<Step>, r: nat, id: Uuid)
    requires Consistent(t) && ReadAndCommits(t, steps, r, id)
    ensures var w, d := steps[r].worker, Run(Initial(t), steps[..r]).workers[steps[r].worker].d;
            var now := Run(Initial(t), steps);
            && now.workers[w] == Committing(d, steps[r].choice.uid, NoChange)
            && Run(Initial(t), steps[..r + 1]).tables == Run(Initial(t), steps[..r]).tables
            && id in now.tables.payments && now.tables.payments[id].intent == d.body.id.value
  {
    RunIsSafe(t, steps[..r]);
    assert steps[..r + 1][..r] == steps[..r];
    StagesNothing(Run(Initial(t), steps[..r]), steps[r].worker, steps[r].choice, id);
    CommitterStays(Initial(t), steps, r + 1, steps[r].worker);
    EvolvesFrom(t, steps, r + 1);
  }

  // Step m is the last of the run to speak of the intent.
  ghost predicate LastToTouch(s: System, steps: seq<Step>, m: nat, intent: string) {
    TouchesAt(s, steps, m, intent) && UntouchedFrom(s, steps, m + 1, intent)
  }

  /**
   A delivery that found the row in its status stages nothing. It decides nevertheless, unless a transaction
   that speaks of the intent commits between its read and its commit; then it decides if and only if the last
   one to do so left the row in that status.
   */
  lemma ReaderDecides(t: Tables, steps: seq<Step>, r: nat, m: nat, id: Uuid)
    requires Consistent(t) && ReadAndCommits(t, steps, r, id)
    ensures var now, w := Run(Initial(t), steps), steps[r].worker;
            var d := Run(Initial(t), steps[..r]).workers[w].d;
            && now.workers[w] == Committing(d, steps[r].choice.uid, NoChange)
            && (UntouchedFrom(Initial(t), steps, r + 1, d.body.id.value) ==> Decides(now, w, id))
            && (LastToTouch(Initial(t), steps, m, d.body.id.value) ==>
                  var left := Run(Initial(t), steps[..m + 1]).tables.payments;
                  id in left && (Decides(now, w, id) <==> Some(left[id].status) == StatusOf(d.kind)))
  {
    var intent := Run(Initial(t), steps[..r]).workers[steps[r].worker].d.body.id.value;
    ReaderAtCommit(t, steps, r, id);
    if UntouchedFrom(Initial(t), steps, r + 1, intent) { UntouchedOverRun(t, steps, r + 1, id); }
    if LastToTouch(Initial(t), steps, m, intent) { UntouchedOverRun(t, steps, m + 1, id); }
  }

  // ----- commit order is not that order -----

  const PAID := Payment(7, 1, "user", "pi", 100, "usd", "succeeded")
  const PAID_TABLES := Tables({1}, map[7 := PAID], map[])
  const OBJECT := PaymentObject(Some("pi"), Some(100), Some("usd"), TenantUuid(1), "user")
  const FAILURE := Delivery("evt_1", "payment_intent.payment_failed", OBJECT)
  const SUCCESS := Delivery("evt_2", "payment_intent.succeeded", OBJECT)

  function Schedule(choice: Choice): seq<Step> {
    [Arrive(0, Deliver(StripeEvent(Some(FAILURE.id), Some(FAILURE.kind), Some(OBJECT)))),
     Arrive(1, Deliver(StripeEvent(Some(SUCCESS.id), Some(SUCCESS.kind), Some(OBJECT)))),
     Proceed(0, choice), Proceed(1, choice), Proceed(1, choice), Proceed(0, choice)]
  }

  lemma SixSteps(s: System, steps: seq<Step>)
    requires |steps| == 6
    ensures Run(s, steps)
         == Next(Next(Next(Next(Next(Next(s, steps[0]), steps[1]), steps[2]), steps[3]), steps[4]), steps[5])
  {
    RunOneMore(s, [], steps[0]);
    assert [] + [steps[0]] == steps[..1];
    RunOneMore(s, steps[..1], steps[1]);
    assert steps[..1] + [steps[1]] == steps[..2];
    RunOneMore(s, steps[..2], steps[2]);
    assert steps[..2] + [steps[2]] == steps[..3];
    RunOneMore(s, steps[..3], steps[3]);
    assert steps[..3] + [steps[3]] == steps[..4];
    RunOneMore(s, steps[..4], steps[4]);
    assert steps[..4] + [steps[4]] == steps[..5];
    RunOneMore(s, steps[..5], steps[5]);
    assert steps[..5] + [steps[5]] == steps;
  }

  lemma StagedReads(choice: Choice)
    ensures AfterRead(PAID_TABLES, FAILURE, choice.uid) == Committing(FAILURE, choice.uid, SetStatus(7, "failed"))
    ensures AfterRead(PAID_TABLES, SUCCESS, choice.uid) == Committing(SUCCESS, choice.uid, NoChange)
  {
    assert 7 in PAID_TABLES.payments && PAID_TABLES.payments[7].intent == "pi";
    assert Lookup(PAID_TABLES.payments, "pi") == Some(PAID);
  }

  ghost predicate BothAt(s: System, first: Phase, second: Phase) {
    s.tables == PAID_TABLES && s.workers == map[0 := first, 1 := second]
  }

  lemma BothArrive(s: System, choice: Choice)
    requires s == Initial(PAID_TABLES)
    ensures var s' := Next(Next(s, Schedule(choice)[0]), Schedule(choice)[1]);
            BothAt(s', Checking(FAILURE), Checking(SUCCESS))
  {
  }

  lemma BothCheck(s: System, choice: Choice)
    requires BothAt(s, Checking(FAILURE), Checking(SUCCESS))
    ensures BothAt(Next(Next(s, Proceed(0, choice)), Proceed(1, choice)), Reading(FAILURE), Reading(SUCCESS))
  {
  }

  lemma BothRead(s: System, choice: Choice)
    requires BothAt(s, Reading(FAILURE), Reading(SUCCESS))
    ensures BothAt(Next(Next(s, Proceed(1, choice)), Proceed(0, choice)),
                   Committing(FAILURE, choice.uid, SetStatus(7, "failed")), Committing(SUCCESS, choice.uid, NoChange))
  {
    StagedReads(choice);
  }

  // The two workers after the success has read "succeeded" and the failure has staged its UPDATE.
  lemma BothStaged(choice: Choice)
    ensures BothAt(Run(Initial(PAID_TABLES), Schedule(choice)),
                   Committing(FAILURE, choice.uid, SetStatus(7, "failed")), Committing(SUCCESS, choice.uid, NoChange))
  {
    var s, steps := Initial(PAID_TABLES), Schedule(choice);
    SixSteps(s, steps);
    BothArrive(s, choice);
    var arrived := Next(Next(s, steps[0]), steps[1]);
    BothCheck(arrived, choice);
    BothRead(Next(Next(arrived, steps[2]), steps[3]), choice);
  }

  /**
   The event committed last does not decide: here "payment_intent.succeeded" commits after
   "payment_intent.payment_failed", and the payment stays "failed".
   */
  lemma LastCommitMayLose(choice: Choice)
    ensures exists steps: seq<Step> ::
              var s := Run(Initial(PAID_TABLES), steps);
              && Records(s, Proceed(1, choice), SUCCESS.id)
              && FAILURE.id in s.tables.events
              && var after := Next(s, Proceed(1, choice)).tables.payments;
                 7 in after && after[7].status == "failed"
  {
    var steps := Schedule(choice);
    var s := Run(Initial(PAID_TABLES), steps);
    BothStaged(choice);
    RunOneMore(Initial(PAID_TABLES), steps, Proceed(0, choice));
    var s' := Next(s, Proceed(0, choice));
    assert s'.tables == Tables({1}, map[7 := PAID.(status := "failed")], map["evt_1" := EventRowOf(FAILURE)]);
    assert s'.workers[1] == Committing(SUCCESS, choice.uid, NoChange);
    assert Records(s', Proceed(1, choice), SUCCESS.id);
  }
}
