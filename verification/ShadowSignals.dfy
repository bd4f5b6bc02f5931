/** The signals table: one row per identity, and the signal a shadow run ends up naming. */
module ShadowSignals {
  import opened Wrappers
  import opened ShadowOutcome

  datatype SignalError = SignalIdTaken | SignalConflict

  datatype Inserted = Inserted(table: seq<Signal>, row: Signal, inserted: bool)

  /** The last row that matches; the keys below leave at most one. */
  function FindRow(table: seq<Signal>, matches: Signal -> bool): (r: Option<Signal>)
    ensures r.Some? ==> r.value in table && matches(r.value)
    ensures r.None? ==> forall row :: row in table ==> !matches(row)
  {
    if table == [] then None
    else if matches(table[|table| - 1]) then Some(table[|table| - 1])
    else FindRow(table[..|table| - 1], matches)
  }

  function FindByIdentity(table: seq<Signal>, identity: Identity): (r: Option<Signal>)
    ensures r.Some? ==> r.value in table && r.value.identity == identity
    ensures r.None? ==> forall row :: row in table ==> row.identity != identity
  {
    FindRow(table, (row: Signal) => row.identity == identity)
  }

  function FindById(table: seq<Signal>, id: Id): (r: Option<Signal>)
    ensures r.Some? ==> r.value in table && r.value.id == id
    ensures r.None? ==> forall row :: row in table ==> row.id != id
  {
    FindRow(table, (row: Signal) => row.id == id)
  }

  /** Both keys of the table, its primary key and the unique index over the identity. */
  ghost predicate Unique(table: seq<Signal>) {
    forall i, j :: 0 <= i < j < |table| ==> table[i].id != table[j].id && table[i].identity != table[j].identity
  }

  /** A signal whose identity is stored already is dropped for the stored one; the conflict clause covers no other key. */
  function InsertDeduped(table: seq<Signal>, signal: Signal): Result<Inserted, SignalError> {
    var existing := FindByIdentity(table, signal.identity);
    if existing.Some? then Success(Inserted(table, existing.value, false))
    else if FindById(table, signal.id).Some? then Failure(SignalIdTaken)
    else Success(Inserted(table + [signal], signal, true))
  }

  /** The signal a shadow run refers to, looked up again before the run is stored. */
  function StabilizeShadowSignalId(table: seq<Signal>, signalId: Option<Id>, signal: Option<Signal>)
    : Result<Option<Id>, SignalError>
  {
    if signalId.None? then Success(None)
    else if FindById(table, signalId.value).Some? then Success(signalId)
    else if signal.None? then Failure(SignalConflict)
    else
      var repaired := FindByIdentity(table, signal.value.identity);
      if repaired.Some? then Success(Some(repaired.value.id)) else Failure(SignalConflict)
  }

  lemma InsertKeepsUnique(table: seq<Signal>, signal: Signal)
    requires Unique(table) && InsertDeduped(table, signal).Success?
    ensures var out := InsertDeduped(table, signal).value;
            && Unique(out.table) && out.row in out.table && out.row.identity == signal.identity && table <= out.table
  {
  }

  /** Other runs only add signals, each through the same deduplicating insert. */
  predicate Grows(earlier: seq<Signal>, later: seq<Signal>) { earlier <= later }

  /**
   * However the table grew since the signal was inserted, the stored identifier exists, and it is that of the row the
   * risk decision was made for, exactly when the generated identifier is that row's or is no row's. An identifier
   * that was dropped by the insert and belongs to another identity by now would be the only way to name a wrong one.
   */
  lemma StoredSignalIsTheAssessedOne(table: seq<Signal>, signal: Signal, later: seq<Signal>)
    requires Unique(table) && Unique(later) && InsertDeduped(table, signal).Success?
    requires Grows(InsertDeduped(table, signal).value.table, later)
    ensures var row := InsertDeduped(table, signal).value.row;
            var stored := StabilizeShadowSignalId(later, Some(signal.id), Some(signal));
            && stored.Success? && stored.value.Some? && FindById(later, stored.value.value).Some?
            && (stored == Success(Some(row.id)) <==> row.id == signal.id || FindById(later, signal.id).None?)
  {
    InsertKeepsUnique(table, signal);
    var out := InsertDeduped(table, signal).value;
    assert out.row in later;
    var found := FindByIdentity(later, signal.identity);
    assert found.Some?;
    SameIdentitySameRow(later, found.value, out.row);
  }

  lemma SameIdentitySameRow(table: seq<Signal>, a: Signal, b: Signal)
    requires Unique(table) && a in table && b in table && (a.identity == b.identity || a.id == b.id)
    ensures a == b
  {
  }

  function InsertAll(table: seq<Signal>, signals: seq<Signal>): seq<Signal> {
    if signals == [] then table
    else
      var before := InsertAll(table, signals[..|signals| - 1]);
      var out := InsertDeduped(before, signals[|signals| - 1]);
      if out.Success? then out.value.table else before
  }

  /** Any number of other inserts keeps both keys unique and every row, and an inserted identity is stored for good. */
  lemma {:induction false} InsertAllKeepsRows(table: seq<Signal>, signals: seq<Signal>)
    requires Unique(table)
    ensures Unique(InsertAll(table, signals)) && Grows(table, InsertAll(table, signals))
    ensures forall row :: row in InsertAll(table, signals) ==> row in table || row in signals
    decreases |signals|
  {
    if signals != [] {
      InsertAllKeepsRows(table, signals[..|signals| - 1]);
      var before := InsertAll(table, signals[..|signals| - 1]);
      if InsertDeduped(before, signals[|signals| - 1]).Success? {
        InsertKeepsUnique(before, signals[|signals| - 1]);
      }
    }
  }

  /** With generated identifiers that never repeat, every interleaving of inserts leaves the assessed signal named. */
  lemma FreshIdentifiersNameTheAssessedSignal(table: seq<Signal>, signal: Signal, others: seq<Signal>)
    requires Unique(table)
    requires forall row :: row in table || row in others ==> row.id != signal.id
    ensures InsertDeduped(table, signal).Success?
    ensures var out := InsertDeduped(table, signal).value;
            var later := InsertAll(out.table, others);
            && StabilizeShadowSignalId(later, Some(signal.id), Some(signal)) == Success(Some(out.row.id))
            && FindById(later, out.row.id) == Some(out.row)
  {
    InsertKeepsUnique(table, signal);
    var out := InsertDeduped(table, signal).value;
    InsertAllKeepsRows(out.table, others);
    var later := InsertAll(out.table, others);
    StoredSignalIsTheAssessedOne(table, signal, later);
    assert out.row in later;
    if FindById(later, out.row.id).Some? {
      SameIdentitySameRow(later, FindById(later, out.row.id).value, out.row);
    }
  }

  /** The same with nothing in between, which is how one run by itself sees the table. */
  lemma ForeignIdStaysForeign(table: seq<Signal>, signal: Signal)
    requires Unique(table)
    ensures (forall row :: row in table ==> row.id != signal.id) ==>
              && InsertDeduped(table, signal).Success?
              && var out := InsertDeduped(table, signal).value;
                 && Unique(out.table) && table <= out.table && FindById(out.table, out.row.id) == Some(out.row)
                 && StabilizeShadowSignalId(out.table, Some(signal.id), Some(signal)) == Success(Some(out.row.id))
  {
    if forall row :: row in table ==> row.id != signal.id {
      FreshIdentifiersNameTheAssessedSignal(table, signal, []);
      InsertKeepsUnique(table, signal);
    }
  }

  lemma EveryFoundStaysFound(table: seq<Signal>, later: seq<Signal>)
    ensures Grows(table, later) ==> forall id :: FindById(table, id).Some? ==> FindById(later, id).Some?
  {
    if Grows(table, later) {
      forall id | FindById(table, id).Some?
        ensures FindById(later, id).Some?
      {
        assert FindById(table, id).value in later;
      }
    }
  }
}
