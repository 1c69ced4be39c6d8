/**
 Strict serializability: the tables any interleaving reaches are those of running
 the committed transactions one at a time. A transaction that wrote a payment row
 takes effect at its commit, one that looked a row up and staged nothing takes
 effect at that lookup, so every transaction's place lies within its own lifetime.
 */
module PaymentSerial {
  import opened Options
  import opened PaymentTables
  import opened PaymentFlow
  import opened PaymentSystem
  import opened PaymentSafety

  // A committed transaction, ready to be run again with nothing beside it.
  datatype Tx = DeliverTx(d: Delivery, uid: Uuid) | ChargeTx(row: Payment)

  ghost predicate Succeeds(t: Tables, tx: Tx) {
    match tx
    case DeliverTx(d, uid) => DeliverAlone(t, d, uid).committed
    case ChargeTx(row) => Commit(t, Staged(Insert(row), None)).Committed?
  }

  ghost function After(t: Tables, tx: Tx): Tables {
    match tx
    case DeliverTx(d, uid) => DeliverAlone(t, d, uid).tables
    case ChargeTx(row) =>
      var result := Commit(t, Staged(Insert(row), None));
      if result.Committed? then result.tables else t
  }

  // ----- the serial run -----

  ghost function RunSerially(t: Tables, txs: seq<Tx>): Tables {
    if txs == [] then t else After(RunSerially(t, txs[..|txs| - 1]), txs[|txs| - 1])
  }

  ghost predicate AllCommit(t: Tables, txs: seq<Tx>) {
    txs == [] ||
    (AllCommit(t, txs[..|txs| - 1]) && Succeeds(RunSerially(t, txs[..|txs| - 1]), txs[|txs| - 1]))
  }

  // ----- the history a run leaves: entries in serial order, some not committed (yet) -----

  datatype Entry = Entry(worker: nat, tx: Tx, committed: bool)

  // `marks` holds the place a worker's lookup reserved for it.
  datatype History = History(log: seq<Entry>, marks: map<nat, nat>)

  function TxOf(phase: Phase): Tx
    requires Pending(phase).Some?
  {
    match phase
    case Committing(d, uid, _) => DeliverTx(d, uid)
    case Saving(_, row, _) => ChargeTx(row)
  }

  ghost predicate ReadsNeutrally(t: Tables, phase: Phase, choice: Choice) {
    phase.Reading? && PlanFor(t, phase.d, choice.uid) == Plan(NoChange)
  }

  ghost function Extend(s: System, h: History, step: Step): History {
    if step.Arrive? || step.worker !in s.workers then h
    else
      var w, phase := step.worker, s.workers[step.worker];
      if ReadsNeutrally(s.tables, phase, step.choice) then
        History(h.log + [Entry(w, DeliverTx(phase.d, step.choice.uid), false)], h.marks[w := |h.log|])
      else if !Commits(s.tables, phase) then h
      else if w in h.marks && h.marks[w] < |h.log| then
        h.(log := h.log[h.marks[w] := Entry(w, TxOf(phase), true)])
      else h.(log := h.log + [Entry(w, TxOf(phase), true)])
  }

  ghost function Trace(s: System, steps: seq<Step>): History {
    if steps == [] then History([], map[])
    else Extend(Run(s, steps[..|steps| - 1]), Trace(s, steps[..|steps| - 1]), steps[|steps| - 1])
  }

  ghost function Replay(t: Tables, log: seq<Entry>): Tables {
    if log == [] then t
    else
      var t', last := Replay(t, log[..|log| - 1]), log[|log| - 1];
      if last.committed then After(t', last.tx) else t'
  }

  ghost predicate ReplaySucceeds(t: Tables, log: seq<Entry>) {
    log == [] ||
    (ReplaySucceeds(t, log[..|log| - 1]) &&
     (log[|log| - 1].committed ==> Succeeds(Replay(t, log[..|log| - 1]), log[|log| - 1].tx)))
  }

  lemma ReplayOneMore(t: Tables, log: seq<Entry>, last: Entry)
    ensures Replay(t, log + [last]) == if last.committed then After(Replay(t, log), last.tx) else Replay(t, log)
    ensures ReplaySucceeds(t, log + [last])
       <==> ReplaySucceeds(t, log) && (last.committed ==> Succeeds(Replay(t, log), last.tx))
  {
    assert (log + [last])[..|log|] == log;
  }

  // ----- inserting a transaction that changes no payment at its reserved place -----

  lemma AfterGrows(t: Tables, tx: Tx)
    ensures t.events.Keys <= After(t, tx).events.Keys
  {
  }

  lemma {:induction false} ReplayGrows(t: Tables, log: seq<Entry>, j: nat)
    requires j <= |log|
    ensures Replay(t, log[..j]).events.Keys <= Replay(t, log).events.Keys
  {
    if j == |log| {
      assert log[..j] == log;
    } else {
      var n := |log| - 1;
      ReplayGrows(t, log[..n], j);
      assert log[..n][..j] == log[..j];
      AfterGrows(Replay(t, log[..n]), log[n].tx);
    }
  }

  lemma PlanIgnoresEvents(t: Tables, row: EventRow, d: Delivery, uid: Uuid)
    ensures PlanFor(AddEvent(t, row), d, uid) == PlanFor(t, d, uid)
  {
  }

  // A transaction of another event runs the same with one more event row present.
  lemma AfterIgnoresEvent(t: Tables, tx: Tx, row: EventRow)
    requires Succeeds(t, tx) && row.id !in After(t, tx).events
    ensures Succeeds(AddEvent(t, row), tx)
    ensures After(AddEvent(t, row), tx) == AddEvent(After(t, tx), row)
  {
    if tx.DeliverTx? {
      PlanIgnoresEvents(t, row, tx.d, tx.uid);
      var own := EventRowOf(tx.d);
      assert t.events[own.id := own][row.id := row] == t.events[row.id := row][own.id := own];
    }
  }

  ghost predicate Neutral(t: Tables, entry: Entry) {
    entry.tx.DeliverTx? && PlanFor(t, entry.tx.d, entry.tx.uid) == Plan(NoChange)
  }

  lemma NeutralAddsEvent(t: Tables, entry: Entry)
    requires Neutral(t, entry) && entry.tx.d.id !in t.events
    ensures Succeeds(t, entry.tx) && After(t, entry.tx) == AddEvent(t, EventRowOf(entry.tx.d))
  {
  }

  lemma {:induction false} Activate(t: Tables, log: seq<Entry>, k: nat, on: Entry)
    requires k < |log| && !log[k].committed && on == log[k].(committed := true)
    requires ReplaySucceeds(t, log)
    requires Neutral(Replay(t, log[..k]), on)
    requires on.tx.d.id !in Replay(t, log).events
    ensures ReplaySucceeds(t, log[k := on])
    ensures Replay(t, log[k := on]) == AddEvent(Replay(t, log), EventRowOf(on.tx.d))
  {
    var n := |log| - 1;
    var before := Replay(t, log[..n]);
    if k == n {
      assert log[k := on][..n] == log[..n];
      NeutralAddsEvent(before, on);
    } else {
      assert log[k := on][..n] == log[..n][k := on];
      assert log[..n][..k] == log[..k];
      ReplayGrows(t, log, n);
      Activate(t, log[..n], k, on);
      if log[n].committed { AfterIgnoresEvent(before, log[n].tx, EventRowOf(on.tx.d)); }
    }
  }

  // ----- the commit of a writer is its serial run -----

  lemma CommitIsSerial(t: Tables, d: Delivery, uid: Uuid, change: Change)
    requires Consistent(t) && ChangeFits(t, d, uid, change)
    requires change.NoChange? ==> !Tracks(d)
    requires Commit(t, StagedBy(d, change)).Committed?
    ensures Succeeds(t, DeliverTx(d, uid))
    ensures After(t, DeliverTx(d, uid)) == Commit(t, StagedBy(d, change)).tables
  {
    if change.SetStatus? {
      LookupIsUnique(t, d.body.id.value, change.id);
      assert StoredPayment(t, change.id);
      if t.payments[change.id].status == change.status {
        assert WriteChange(t.payments, change) == t.payments;
      }
    }
  }

  // ----- the invariant that ties a history to the state -----

  ghost predicate Unlogged(h: History, w: nat) {
    forall k :: 0 <= k < |h.log| ==> h.log[k].worker != w
  }

  // A worker that has looked nothing up and committed nothing has no entry; one whose
  // lookup staged nothing has its place.
  ghost predicate PlaceFits(t: Tables, h: History, w: nat, phase: Phase) {
    match phase
    case Checking(_) => Unlogged(h, w)
    case Reading(_) => Unlogged(h, w)
    case Preparing(_) => Unlogged(h, w)
    case Calling(_) => Unlogged(h, w)
    case Saving(_, _, _) => Unlogged(h, w)
    case Committing(d, uid, change) =>
      if w in h.marks then
        && h.marks[w] < |h.log| && h.log[h.marks[w]] == Entry(w, DeliverTx(d, uid), false)
        && Neutral(Replay(t, h.log[..h.marks[w]]), h.log[h.marks[w]])
        && change == NoChange
      else Unlogged(h, w) && (change.NoChange? ==> !Tracks(d))
    case _ => true
  }

  ghost predicate Serial(t: Tables, s: System, h: History) {
    && ReplaySucceeds(t, h.log)
    && Replay(t, h.log) == s.tables
    && (forall w :: w in s.workers ==> PlaceFits(t, h, w, s.workers[w]))
    && (forall k :: 0 <= k < |h.log| ==> h.log[k].worker in s.workers)
    && (forall w :: w in h.marks ==> !Unlogged(h, w))
  }

  ghost predicate OneEntryEach(h: History) {
    forall j, k :: 0 <= j < k < |h.log| ==> h.log[j].worker != h.log[k].worker
  }

  // Appending an entry of w disturbs no other worker's place.
  lemma PlaceAfterAppend(t: Tables, h: History, h': History, entry: Entry, w: nat, phase: Phase)
    requires PlaceFits(t, h, w, phase)
    requires h'.log == h.log + [entry] && entry.worker != w
    requires w in h.marks <==> w in h'.marks
    requires w in h.marks ==> h'.marks[w] == h.marks[w]
    ensures PlaceFits(t, h', w, phase)
  {
    if phase.Committing? && w in h.marks {
      assert h'.log[..h.marks[w]] == h.log[..h.marks[w]];
    }
  }

  lemma PlaceAfterActivate(t: Tables, h: History, k: nat, on: Entry, w: nat, phase: Phase)
    requires PlaceFits(t, h, w, phase)
    requires k < |h.log| && !h.log[k].committed && on == h.log[k].(committed := true) && on.worker != w
    requires ReplaySucceeds(t, h.log)
    requires Neutral(Replay(t, h.log[..k]), on) && on.tx.d.id !in Replay(t, h.log).events
    ensures PlaceFits(t, h.(log := h.log[k := on]), w, phase)
  {
    if phase.Committing? && w in h.marks {
      var m := h.marks[w];
      var log' := h.log[k := on];
      if m <= k {
        assert log'[..m] == h.log[..m];
      } else {
        assert log'[..m] == h.log[..m][k := on];
        assert h.log[..m][..k] == h.log[..k];
        ReplayGrows(t, h.log, m);
        PrefixSucceeds(t, h.log, m);
        Activate(t, h.log[..m], k, on);
        PlanIgnoresEvents(Replay(t, h.log[..m]), EventRowOf(on.tx.d), phase.d, phase.uid);
      }
    }
  }

  lemma {:induction false} PrefixSucceeds(t: Tables, log: seq<Entry>, m: nat)
    requires m <= |log| && ReplaySucceeds(t, log)
    ensures ReplaySucceeds(t, log[..m])
  {
    if m == |log| {
      assert log[..m] == log;
    } else {
      PrefixSucceeds(t, log[..|log| - 1], m);
      assert log[..|log| - 1][..m] == log[..m];
    }
  }

  // ----- one lemma for each kind of step -----

  lemma NeutralReadKeepsSerial(t: Tables, s: System, h: History, step: Step)
    requires Safe(s) && Serial(t, s, h)
    requires step.Proceed? && step.worker in s.workers
    requires ReadsNeutrally(s.tables, s.workers[step.worker], step.choice)
    ensures Serial(t, Next(s, step), Extend(s, h, step))
  {
    var w, s', h' := step.worker, Next(s, step), Extend(s, h, step);
    var entry := h'.log[|h.log|];
    ReplayOneMore(t, h.log, entry);
    assert h'.log[..|h.log|] == h.log;
    forall v | v in s'.workers
      ensures PlaceFits(t, h', v, s'.workers[v])
    {
      if v != w { PlaceAfterAppend(t, h, h', entry, v, s.workers[v]); }
    }
    forall v | v in h'.marks
      ensures !Unlogged(h', v)
    {
      if v == w {
        assert h'.log[|h.log|].worker == w;
      } else {
        var k :| 0 <= k < |h.log| && h.log[k].worker == v;
        assert h'.log[k].worker == v;
      }
    }
  }

  lemma CommitReplays(t: Tables, s: System, h: History, w: nat)
    requires Safe(s) && Serial(t, s, h)
    requires w in s.workers && w !in h.marks && Commits(s.tables, s.workers[w])
    ensures var log' := h.log + [Entry(w, TxOf(s.workers[w]), true)];
            ReplaySucceeds(t, log') && Replay(t, log') == NextTables(s.tables, s.workers[w])
  {
    var phase := s.workers[w];
    assert PhaseFits(s.tables, phase);
    assert PlaceFits(t, h, w, phase);
    if phase.Committing? { CommitIsSerial(s.tables, phase.d, phase.uid, phase.change); }
    ReplayOneMore(t, h.log, Entry(w, TxOf(phase), true));
  }

  // Marks of a history whose log changed, but not in whose entry stands where.
  lemma MarksStayLogged(h: History, h': History)
    requires h'.marks == h.marks && |h.log| <= |h'.log|
    requires forall k :: 0 <= k < |h.log| ==> h'.log[k].worker == h.log[k].worker
    requires forall w :: w in h.marks ==> !Unlogged(h, w)
    ensures forall w :: w in h'.marks ==> !Unlogged(h', w)
  {
    forall w | w in h'.marks
      ensures !Unlogged(h', w)
    {
      var k :| 0 <= k < |h.log| && h.log[k].worker == w;
      assert h'.log[k].worker == w;
    }
  }

  // Appending w's entry disturbs nobody else, and w itself is past its commit.
  lemma PlacesAfterCommit(t: Tables, s: System, h: History, step: Step, v: nat)
    requires Safe(s) && Serial(t, s, h)
    requires step.Proceed? && step.worker in s.workers && step.worker !in h.marks
    requires Commits(s.tables, s.workers[step.worker])
    requires v in s.workers
    ensures PlaceFits(t, h.(log := h.log + [Entry(step.worker, TxOf(s.workers[step.worker]), true)]), v,
                      Next(s, step).workers[v])
  {
    var entry := Entry(step.worker, TxOf(s.workers[step.worker]), true);
    assert PlaceFits(t, h, v, s.workers[v]);
    if v != step.worker {
      PlaceAfterAppend(t, h, h.(log := h.log + [entry]), entry, v, s.workers[v]);
    }
  }

  lemma AppendingCommitKeepsSerial(t: Tables, s: System, h: History, step: Step)
    requires Safe(s) && Serial(t, s, h)
    requires step.Proceed? && step.worker in s.workers && step.worker !in h.marks
    requires Commits(s.tables, s.workers[step.worker])
    ensures Serial(t, Next(s, step), Extend(s, h, step))
  {
    var w, h' := step.worker, Extend(s, h, step);
    assert h' == h.(log := h.log + [Entry(w, TxOf(s.workers[w]), true)]);
    CommitReplays(t, s, h, w);
    MarksStayLogged(h, h');
    forall v | v in s.workers
      ensures PlaceFits(t, h', v, Next(s, step).workers[v])
    {
      PlacesAfterCommit(t, s, h, step, v);
    }
  }

  // The commit of a marked worker switches its own entry on.
  lemma MarkedCommitReplays(t: Tables, s: System, h: History, w: nat)
    requires Safe(s) && Serial(t, s, h)
    requires w in s.workers && w in h.marks && Commits(s.tables, s.workers[w])
    ensures h.marks[w] < |h.log|
    ensures var k, on := h.marks[w], Entry(w, TxOf(s.workers[w]), true);
            && !h.log[k].committed && on == h.log[k].(committed := true)
            && Neutral(Replay(t, h.log[..k]), on) && on.tx.d.id !in s.tables.events
            && ReplaySucceeds(t, h.log[k := on])
            && Replay(t, h.log[k := on]) == NextTables(s.tables, s.workers[w])
  {
    assert PlaceFits(t, h, w, s.workers[w]);
    Activate(t, h.log, h.marks[w], Entry(w, TxOf(s.workers[w]), true));
  }

  // Switching w's entry on disturbs nobody else, and w itself is past its commit.
  lemma PlacesAfterMarkedCommit(t: Tables, s: System, h: History, step: Step, v: nat)
    requires Safe(s) && Serial(t, s, h)
    requires step.Proceed? && step.worker in s.workers && step.worker in h.marks
    requires Commits(s.tables, s.workers[step.worker])
    requires v in s.workers
    ensures h.marks[step.worker] < |h.log|
    ensures PlaceFits(t, h.(log := h.log[h.marks[step.worker] := Entry(step.worker, TxOf(s.workers[step.worker]), true)]),
                      v, Next(s, step).workers[v])
  {
    var w := step.worker;
    MarkedCommitReplays(t, s, h, w);
    if v != w {
      assert PlaceFits(t, h, v, s.workers[v]);
      PlaceAfterActivate(t, h, h.marks[w], Entry(w, TxOf(s.workers[w]), true), v, s.workers[v]);
    } else {
      assert PlaceFits(t, h, w, s.workers[w]);
    }
  }

  lemma MarkedCommitKeepsSerial(t: Tables, s: System, h: History, step: Step)
    requires Safe(s) && Serial(t, s, h)
    requires step.Proceed? && step.worker in s.workers && step.worker in h.marks
    requires Commits(s.tables, s.workers[step.worker])
    ensures Serial(t, Next(s, step), Extend(s, h, step))
  {
    var w, h' := step.worker, Extend(s, h, step);
    MarkedCommitReplays(t, s, h, w);
    assert h' == h.(log := h.log[h.marks[w] := Entry(w, TxOf(s.workers[w]), true)]);
    MarksStayLogged(h, h');
    forall v | v in s.workers
      ensures PlaceFits(t, h', v, Next(s, step).workers[v])
    {
      PlacesAfterMarkedCommit(t, s, h, step, v);
    }
  }

  lemma QuietStepKeepsSerial(t: Tables, s: System, h: History, step: Step)
    requires Safe(s) && Serial(t, s, h)
    requires Extend(s, h, step) == h
    requires step.Proceed? && step.worker in s.workers ==> !Commits(s.tables, s.workers[step.worker])
    ensures Serial(t, Next(s, step), h)
  {
    var w, s' := step.worker, Next(s, step);
    forall v | v in s'.workers
      ensures PlaceFits(t, h, v, s'.workers[v])
    {
      if v in s.workers { assert PlaceFits(t, h, v, s.workers[v]); }
    }
  }

  lemma StepKeepsSerial(t: Tables, s: System, h: History, step: Step)
    requires Safe(s) && Serial(t, s, h)
    ensures Serial(t, Next(s, step), Extend(s, h, step))
  {
    if step.Proceed? && step.worker in s.workers {
      var w, phase := step.worker, s.workers[step.worker];
      assert PlaceFits(t, h, w, phase);
      if ReadsNeutrally(s.tables, phase, step.choice) {
        NeutralReadKeepsSerial(t, s, h, step);
      } else if !Commits(s.tables, phase) {
        QuietStepKeepsSerial(t, s, h, step);
      } else if w in h.marks {
        MarkedCommitKeepsSerial(t, s, h, step);
      } else {
        AppendingCommitKeepsSerial(t, s, h, step);
      }
    } else {
      QuietStepKeepsSerial(t, s, h, step);
    }
  }
}
