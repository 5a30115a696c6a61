/**
  Concurrent query snapshot writes, one row at a time. The unique index makes an insert wait while another
  open transaction has inserted the same key, and refuses it once that key is committed. A circle of waiting
  writers is broken by the database with a rollback, which may come at any time here.
 */
module InterleavedQueryWriters {
  import opened Wrappers
  import opened Models
  import opened QueryTable

  /** A write with its first `inserted` rows in the table, not yet committed. */
  datatype Writer = Writer(snapshot: QuerySnapshot, inserted: nat, failed: bool)

  datatype State = State(rows: seq<QueryRow>, writers: map<nat, Writer>, log: seq<QuerySnapshot>)

  datatype Event = Begin(w: nat, snapshot: QuerySnapshot) | InsertRow(w: nat) | Commit(w: nat) | Rollback(w: nat)

  const INITIAL := State([], map[], [])

  function Inserted(wr: Writer): seq<QueryRow> {
    if wr.inserted <= |wr.snapshot.statements| then QueryRowsOf(wr.snapshot)[..wr.inserted] else QueryRowsOf(wr.snapshot)
  }

  predicate HasKey(rows: seq<QueryRow>, key: PointKey) {
    exists i :: 0 <= i < |rows| && PointKeyOf(rows[i]) == key
  }

  predicate Done(wr: Writer) {
    !wr.failed && wr.inserted == |wr.snapshot.statements|
  }

  predicate CanInsert(st: State, w: nat) {
    && w in st.writers && !st.writers[w].failed && st.writers[w].inserted < |st.writers[w].snapshot.statements|
    && var key := PointKeyOf(QueryRowsOf(st.writers[w].snapshot)[st.writers[w].inserted]);
       forall v :: v in st.writers && v != w ==> !HasKey(Inserted(st.writers[v]), key)
  }

  function AfterInsert(rows: seq<QueryRow>, wr: Writer): Writer
    requires wr.inserted < |wr.snapshot.statements|
  {
    var key := PointKeyOf(QueryRowsOf(wr.snapshot)[wr.inserted]);
    if HasKey(rows, key) || HasKey(Inserted(wr), key) then wr.(failed := true) else wr.(inserted := wr.inserted + 1)
  }

  /** An event that is not enabled waits: nothing happens. */
  function Step(st: State, e: Event): State {
    match e
    case Begin(w, s) => if w in st.writers then st else st.(writers := st.writers[w := Writer(s, 0, false)])
    case InsertRow(w) =>
      if CanInsert(st, w) then st.(writers := st.writers[w := AfterInsert(st.rows, st.writers[w])]) else st
    case Commit(w) =>
      if w in st.writers && Done(st.writers[w]) then
        State(st.rows + Inserted(st.writers[w]), st.writers - {w}, st.log + [st.writers[w].snapshot])
      else st
    case Rollback(w) => st.(writers := st.writers - {w})
  }

  function Run(events: seq<Event>): State {
    if events == [] then INITIAL else Step(Run(events[..|events| - 1]), events[|events| - 1])
  }

  /** Batch after batch, as one writer alone would insert them. */
  function Replay(log: seq<QuerySnapshot>): Option<seq<QueryRow>> {
    if log == [] then Some([]) else
      var n := |log| - 1;
      match Replay(log[..n])
      case None => None
      case Some(rows) => InsertQueryRows(rows, QueryRowsOf(log[n]))
  }

  // ----- What every step keeps

  predicate Apart(a: seq<QueryRow>, b: seq<QueryRow>) {
    forall i, j :: 0 <= i < |a| && 0 <= j < |b| ==> PointKeyOf(a[i]) != PointKeyOf(b[j])
  }

  predicate WriterOk(rows: seq<QueryRow>, wr: Writer) {
    && wr.inserted <= |wr.snapshot.statements|
    && UniquePoints(rows + Inserted(wr))
    && (wr.failed ==> !UniquePoints(rows + QueryRowsOf(wr.snapshot)))
  }

  ghost predicate Inv(st: State) {
    && Replay(st.log) == Some(st.rows) && st.rows == LogRows(st.log) && UniquePoints(st.rows)
    && (forall w :: w in st.writers ==> WriterOk(st.rows, st.writers[w]))
    && (forall w, v :: w in st.writers && v in st.writers && w != v ==> Apart(Inserted(st.writers[w]), Inserted(st.writers[v])))
  }

  lemma {:induction false} UniqueAppend(a: seq<QueryRow>, b: seq<QueryRow>)
    ensures UniquePoints(a + b) <==> UniquePoints(a) && UniquePoints(b) && Apart(a, b)
  {
    var ab := a + b;
    if UniquePoints(ab) {
      forall i, j | 0 <= i < j < |a| ensures PointKeyOf(a[i]) != PointKeyOf(a[j]) {
        assert ab[i] == a[i] && ab[j] == a[j];
      }
      forall i, j | 0 <= i < j < |b| ensures PointKeyOf(b[i]) != PointKeyOf(b[j]) {
        assert ab[|a| + i] == b[i] && ab[|a| + j] == b[j];
      }
      forall i, j | 0 <= i < |a| && 0 <= j < |b| ensures PointKeyOf(a[i]) != PointKeyOf(b[j]) {
        assert ab[i] == a[i] && ab[|a| + j] == b[j];
      }
    }
  }

  lemma {:induction false} InsertKeepsWriter(rows: seq<QueryRow>, wr: Writer)
    requires WriterOk(rows, wr) && !wr.failed && wr.inserted < |wr.snapshot.statements|
    ensures WriterOk(rows, AfterInsert(rows, wr))
  {
    var all, k := QueryRowsOf(wr.snapshot), wr.inserted;
    var next := all[k];
    assert all[..k + 1] == all[..k] + [next];
    UniqueAppend(rows, all[..k]);
    if HasKey(rows, PointKeyOf(next)) {
      UniqueAppend(rows, all);
    } else if HasKey(all[..k], PointKeyOf(next)) {
      var i :| 0 <= i < k && PointKeyOf(all[..k][i]) == PointKeyOf(next);
      assert all[i] == all[..k][i];
      UniqueAppend(rows, all);
    } else {
      UniqueAppend(all[..k], [next]);
      UniqueAppend(rows, all[..k + 1]);
    }
  }

  lemma {:induction false} InsertKeepsApart(rows: seq<QueryRow>, wr: Writer, others: seq<QueryRow>)
    requires wr.inserted < |wr.snapshot.statements| && Apart(Inserted(wr), others)
    requires !HasKey(others, PointKeyOf(QueryRowsOf(wr.snapshot)[wr.inserted]))
    ensures Apart(Inserted(AfterInsert(rows, wr)), others) && Apart(others, Inserted(AfterInsert(rows, wr)))
  {
    var all, k := QueryRowsOf(wr.snapshot), wr.inserted;
    assert all[..k + 1] == all[..k] + [all[k]];
  }

  lemma {:induction false} InsertKeepsInv(st: State, w: nat)
    requires Inv(st) && CanInsert(st, w)
    ensures Inv(Step(st, InsertRow(w)))
  {
    InsertKeepsWriter(st.rows, st.writers[w]);
    forall v | v in st.writers && v != w
      ensures Apart(Inserted(AfterInsert(st.rows, st.writers[w])), Inserted(st.writers[v]))
      ensures Apart(Inserted(st.writers[v]), Inserted(AfterInsert(st.rows, st.writers[w])))
    {
      InsertKeepsApart(st.rows, st.writers[w], Inserted(st.writers[v]));
    }
  }

  lemma {:induction false} CommitKeepsWriter(rows: seq<QueryRow>, added: seq<QueryRow>, wr: Writer)
    requires WriterOk(rows, wr) && UniquePoints(rows + added) && Apart(added, Inserted(wr))
    ensures WriterOk(rows + added, wr)
  {
    UniqueAppend(rows, added);
    UniqueAppend(rows, Inserted(wr));
    UniqueAppend(rows + added, Inserted(wr));
    UniqueAppend(rows, QueryRowsOf(wr.snapshot));
    UniqueAppend(rows + added, QueryRowsOf(wr.snapshot));
    if wr.failed && Apart(rows + added, QueryRowsOf(wr.snapshot)) {
      forall i, j | 0 <= i < |rows| && 0 <= j < |wr.snapshot.statements|
        ensures PointKeyOf(rows[i]) != PointKeyOf(QueryRowsOf(wr.snapshot)[j])
      {
        assert (rows + added)[i] == rows[i];
      }
    }
  }

  /** A finished writer commits exactly what a batch insert into the tables committed now would add. */
  lemma {:induction false} CommitIsInsert(st: State, w: nat)
    requires Inv(st) && w in st.writers && Done(st.writers[w])
    ensures Inserted(st.writers[w]) == QueryRowsOf(st.writers[w].snapshot)
    ensures InsertQueryRows(st.rows, QueryRowsOf(st.writers[w].snapshot)) == Some(st.rows + Inserted(st.writers[w]))
  {
    assert WriterOk(st.rows, st.writers[w]);
    assert st.rows + [] == st.rows;
  }

  lemma {:induction false} CommitKeepsInv(st: State, w: nat)
    requires Inv(st) && w in st.writers && Done(st.writers[w])
    ensures Inv(Step(st, Commit(w)))
  {
    var wr := st.writers[w];
    CommitIsInsert(st, w);
    assert (st.log + [wr.snapshot])[..|st.log|] == st.log;
    forall v | v in st.writers && v != w ensures WriterOk(st.rows + Inserted(wr), st.writers[v]) {
      CommitKeepsWriter(st.rows, Inserted(wr), st.writers[v]);
    }
  }

  lemma {:induction false} StepKeepsInv(st: State, e: Event)
    requires Inv(st)
    ensures Inv(Step(st, e))
  {
    match e
    case Begin(w, s) => assert st.rows + [] == st.rows;
    case InsertRow(w) =>
      if CanInsert(st, w) {
        InsertKeepsInv(st, w);
      }
    case Commit(w) =>
      if w in st.writers && Done(st.writers[w]) {
        CommitKeepsInv(st, w);
      }
    case Rollback(w) =>
  }

  lemma {:induction false} RunKeepsInv(events: seq<Event>)
    ensures Inv(Run(events))
  {
    if events == [] {
    } else {
      RunKeepsInv(events[..|events| - 1]);
      StepKeepsInv(Run(events[..|events| - 1]), events[|events| - 1]);
    }
  }

  // ----- Consequences for every interleaving

  /** The table is always the serial insertion of whole committed batches, in commit order, and keeps the constraint. */
  lemma {:induction false} InterleavingsSerialise(events: seq<Event>)
    ensures var st := Run(events);
            Replay(st.log) == Some(st.rows) && st.rows == LogRows(st.log) && UniquePoints(st.rows)
  {
    RunKeepsInv(events);
  }

  /** A batch that went in would go in serially now; one that was refused would be refused serially now. */
  lemma {:induction false} OutcomesAreSerial(events: seq<Event>, w: nat)
    requires w in Run(events).writers
    ensures var st := Run(events);
            var serial := InsertQueryRows(st.rows, QueryRowsOf(st.writers[w].snapshot));
            && (Done(st.writers[w]) ==> serial.Some?)
            && (st.writers[w].failed ==> serial.None?)
  {
    var st := Run(events);
    RunKeepsInv(events);
    assert WriterOk(st.rows, st.writers[w]);
    if Done(st.writers[w]) {
      CommitIsInsert(st, w);
    }
    if st.writers[w].failed {
      assert st.rows + [] == st.rows;
    }
  }

  // ----- That writers finish

  function Inserts(w: nat, n: nat): seq<Event> {
    if n == 0 then [] else Inserts(w, n - 1) + [InsertRow(w)]
  }

  function RunFrom(st: State, events: seq<Event>): State {
    if events == [] then st else Step(RunFrom(st, events[..|events| - 1]), events[|events| - 1])
  }

  lemma {:induction false} RunConcat(a: seq<Event>, b: seq<Event>)
    ensures Run(a + b) == RunFrom(Run(a), b)
  {
    if b == [] {
      assert a + b == a;
    } else {
      var n := |b| - 1;
      assert (a + b)[..|a + b| - 1] == a + b[..n];
      RunConcat(a, b[..n]);
    }
  }

  lemma {:induction false} RunFromConcat(st: State, a: seq<Event>, b: seq<Event>)
    ensures RunFrom(st, a + b) == RunFrom(RunFrom(st, a), b)
  {
    if b == [] {
      assert a + b == a;
    } else {
      var n := |b| - 1;
      assert (a + b)[..|a + b| - 1] == a + b[..n];
      RunFromConcat(st, a, b[..n]);
    }
  }

  /** No open writer has inserted a key of the batch. */
  ghost predicate Unobstructed(st: State, w: nat, s: QuerySnapshot) {
    forall v, i :: v in st.writers && v != w && 0 <= i < |s.statements| ==>
      !HasKey(Inserted(st.writers[v]), PointKeyOf(QueryRowsOf(s)[i]))
  }

  /** Only `w` has moved since `st`, and it has inserted `n` rows unless it was refused. */
  ghost predicate Alone(st: State, now: State, w: nat, s: QuerySnapshot, n: nat) {
    && Inv(now) && now.rows == st.rows && now.log == st.log && Unobstructed(now, w, s)
    && w in now.writers && now.writers[w].snapshot == s
    && (now.writers[w].failed || now.writers[w].inserted == n)
  }

  lemma {:induction false} OneMoreAlone(st: State, now: State, w: nat, s: QuerySnapshot, n: nat)
    requires Alone(st, now, w, s, n) && n < |s.statements|
    ensures Alone(st, Step(now, InsertRow(w)), w, s, n + 1)
  {
    StepKeepsInv(now, InsertRow(w));
  }

  lemma {:induction false} InsertsAlone(st: State, now: State, w: nat, s: QuerySnapshot, n: nat) returns (later: State)
    requires n <= |s.statements| && Alone(st, now, w, s, 0)
    ensures later == RunFrom(now, Inserts(w, n)) && Alone(st, later, w, s, n)
  {
    later := now;
    for i := 0 to n
      invariant later == RunFrom(now, Inserts(w, i)) && Alone(st, later, w, s, i)
    {
      OneMoreAlone(st, later, w, s, i);
      LastInsert(now, w, i + 1);
      later := Step(later, InsertRow(w));
    }
  }

  lemma {:induction false} LastInsert(now: State, w: nat, n: nat)
    requires n > 0
    ensures RunFrom(now, Inserts(w, n)) == Step(RunFrom(now, Inserts(w, n - 1)), InsertRow(w))
  {
    var events := Inserts(w, n);
    assert events[..|events| - 1] == Inserts(w, n - 1);
  }

  /** A whole batch with nothing in between. */
  function Whole(w: nat, s: QuerySnapshot): seq<Event> {
    [Begin(w, s)] + Inserts(w, |s.statements|) + [Commit(w)]
  }

  lemma {:induction false} WholeRun(events: seq<Event>, w: nat, s: QuerySnapshot)
    ensures Run(events + Whole(w, s)) ==
            Step(RunFrom(Step(Run(events), Begin(w, s)), Inserts(w, |s.statements|)), Commit(w))
  {
    var begin, middle := [Begin(w, s)], Inserts(w, |s.statements|);
    RunConcat(events, Whole(w, s));
    assert Whole(w, s)[..|Whole(w, s)| - 1] == begin + middle;
    RunFromConcat(Run(events), begin, middle);
    assert begin[..0] == [];
  }

  lemma {:induction false} CommitAlone(st: State, now: State, w: nat, s: QuerySnapshot)
    requires Alone(st, now, w, s, |s.statements|)
    ensures Step(now, Commit(w)).log == st.log + if UniquePoints(st.rows + QueryRowsOf(s)) then [s] else []
  {
    assert WriterOk(now.rows, now.writers[w]);
    if !now.writers[w].failed {
      CommitIsInsert(now, w);
    }
  }

  /**
    After any run, whatever other writers are doing, a new batch none of whose keys an open writer has inserted
    is committed undisturbed if and only if it does not clash with what is committed or within itself.
   */
  lemma {:induction false} WritersFinish(events: seq<Event>, w: nat, s: QuerySnapshot)
    requires w !in Run(events).writers && Unobstructed(Run(events), w, s)
    ensures Run(events + Whole(w, s)).log ==
              Run(events).log + if Clashes(Run(events).rows + QueryRowsOf(s)) then [] else [s]
  {
    var st := Run(events);
    var begun := Step(st, Begin(w, s));
    RunKeepsInv(events);
    StepKeepsInv(st, Begin(w, s));
    var done := InsertsAlone(st, begun, w, s, |s.statements|);
    CommitAlone(st, done, w, s);
    WholeRun(events, w, s);
    UniqueMeansNoClash(st.rows + QueryRowsOf(s));
  }
}
