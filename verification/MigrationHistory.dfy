/**
 What a migration database holds and what one step of a migrator does to it.

 A store is the committed content of a database: the bookkeeping table, and a log of the
 schema operations whose effects are in the schema.  The log is what the bookkeeping table
 is supposed to describe.
 */
module MigrationHistory {
  import opened Common

  /** What identifies a migration in the bookkeeping table. */
  datatype Entry = Entry(version: int64, name: string, checksum: string)

  /** A migration; `reversible` says that it has a down callback or a down statement. */
  datatype Migration = Migration(entry: Entry, reversible: bool)

  /** A stored text value.  One backend hands TEXT columns back as blobs. */
  datatype Cell = NullCell | TextCell(text: string) | BlobCell(bytes: string) | OtherCell

  datatype Record = Record(name: Cell, checksum: Cell)

  datatype HistoryRow = HistoryRow(version: int64, record: Record)

  datatype Operation = Up(entry: Entry) | Down(entry: Entry)

  datatype Store = Store(history: map<int64, Record>, log: seq<Operation>)

  predicate TextMatches(cell: Cell, expected: string) {
    match cell
    case TextCell(text) => text == expected
    case BlobCell(bytes) => bytes == expected
    case _ => false
  }

  predicate RowMatches(row: HistoryRow, entry: Entry) {
    && row.version == entry.version
    && TextMatches(row.record.name, entry.name)
    && TextMatches(row.record.checksum, entry.checksum)
  }

  predicate Increasing(list: seq<Migration>) {
    forall i, j | 0 <= i < j < |list| :: list[i].entry.version < list[j].entry.version
  }

  // ---------------------------------------------------------------- SELECT ... ORDER BY version

  predicate IsGreatest(v: int64, keys: set<int64>) {
    v in keys && forall k | k in keys :: k <= v
  }

  lemma {:induction false} HasGreatest(keys: set<int64>)
    requires keys != {}
    ensures exists v :: IsGreatest(v, keys)
    decreases |keys|
  {
    var v :| v in keys;
    var rest := keys - {v};
    if rest == {} {
      assert keys == {v};
      assert IsGreatest(v, keys);
    } else {
      HasGreatest(rest);
      var w :| IsGreatest(w, rest);
      assert forall k | k in keys :: k == v || k in rest;
      assert IsGreatest(if v < w then w else v, keys);
    }
  }

  ghost function Greatest(keys: set<int64>): (v: int64)
    requires keys != {}
    ensures IsGreatest(v, keys)
  {
    HasGreatest(keys);
    var v :| IsGreatest(v, keys);
    v
  }

  /** The rows of the bookkeeping table in ascending order of version. */
  ghost function Ordered(history: map<int64, Record>): (rows: seq<HistoryRow>)
    ensures |rows| == |history|
    decreases |history|
  {
    if history == map[] then [] else
      var v := Greatest(history.Keys);
      assert |(history - {v}).Keys| == |history.Keys - {v}|;
      Ordered(history - {v}) + [HistoryRow(v, history[v])]
  }

  ghost predicate Ascending(rows: seq<HistoryRow>) {
    forall i, j | 0 <= i < j < |rows| :: rows[i].version < rows[j].version
  }

  /** The rows are the entries of the table, each once. */
  ghost predicate Lists(rows: seq<HistoryRow>, history: map<int64, Record>) {
    && (forall row | row in rows :: row.version in history && history[row.version] == row.record)
    && (forall v | v in history :: HistoryRow(v, history[v]) in rows)
  }

  lemma ListsLast(rows: seq<HistoryRow>, history: map<int64, Record>, v: int64)
    requires IsGreatest(v, history.Keys)
    requires Lists(rows, history - {v}) && Ascending(rows)
    ensures Lists(rows + [HistoryRow(v, history[v])], history)
    ensures Ascending(rows + [HistoryRow(v, history[v])])
  {
    var rest := history - {v};
    var all := rows + [HistoryRow(v, history[v])];
    forall k | k in history ensures HistoryRow(k, history[k]) in all {
      if k == v { assert all[|rows|] == HistoryRow(k, history[k]); } else { assert k in rest && HistoryRow(k, rest[k]) in rows; }
    }
    forall i | 0 <= i < |rows| ensures rows[i].version < v {
      assert rows[i] in rows;
    }
  }

  lemma {:induction false} OrderedIsTable(history: map<int64, Record>)
    ensures Ascending(Ordered(history)) && Lists(Ordered(history), history)
    decreases |history|
  {
    if history != map[] {
      var v := Greatest(history.Keys);
      var rest := history - {v};
      assert |rest.Keys| == |history.Keys - {v}|;
      OrderedIsTable(rest);
      ListsLast(Ordered(rest), history, v);
    }
  }

  /** A row above every stored version comes last. */
  lemma OrderedInsert(history: map<int64, Record>, v: int64, record: Record)
    requires forall k | k in history :: k < v
    ensures Ordered(history[v := record]) == Ordered(history) + [HistoryRow(v, record)]
  {
    var grown := history[v := record];
    assert v in grown;
    assert Greatest(grown.Keys) == v;
    assert grown - {v} == history;
  }

  /** Deleting the row with the last version removes the last row. */
  lemma OrderedDelete(history: map<int64, Record>)
    requires |history| > 0
    ensures var rows := Ordered(history);
            rows[|rows| - 1].version in history &&
            Ordered(history - {rows[|rows| - 1].version}) == rows[..|rows| - 1]
  {
    assert history != map[];
    var v := Greatest(history.Keys);
    assert Ordered(history) == Ordered(history - {v}) + [HistoryRow(v, history[v])];
  }

  // ---------------------------------------------------------------- read_history

  ghost predicate Matches(rows: seq<HistoryRow>, entries: seq<Entry>) {
    && |rows| == |entries|
    && forall i | 0 <= i < |rows| :: RowMatches(rows[i], entries[i])
  }

  function Entries(list: seq<Migration>): (entries: seq<Entry>)
    ensures |entries| == |list| && forall i | 0 <= i < |list| :: entries[i] == list[i].entry
  {
    seq(|list|, i requires 0 <= i < |list| => list[i].entry)
  }

  /** The history describes the first `count` migrations of the list. */
  ghost predicate IsPrefix(history: map<int64, Record>, list: seq<Migration>, count: nat) {
    count <= |list| && Matches(Ordered(history), Entries(list[..count]))
  }

  /** The number of applied migrations when the history is a prefix of the list. */
  ghost function AppliedCount(history: map<int64, Record>, list: seq<Migration>): (count: Option<nat>)
    ensures count.Some? ==> IsPrefix(history, list, count.value)
    ensures count.None? ==> forall c: nat :: !IsPrefix(history, list, c)
  {
    if exists c: nat :: IsPrefix(history, list, c) then
      var c: nat :| IsPrefix(history, list, c);
      Some(c)
    else None
  }

  /** The same number, or zero when the history is not a prefix of the list. */
  ghost function CountOr0(history: map<int64, Record>, list: seq<Migration>): (count: nat)
    ensures count <= |list|
    ensures (exists c: nat :: IsPrefix(history, list, c)) ==> IsPrefix(history, list, count)
  {
    var applied := AppliedCount(history, list);
    if applied.Some? then applied.value else 0
  }

  // ---------------------------------------------------------------- one step

  datatype Turn = Reached | Perform(migration: Migration) | Irreversible(migration: Migration)

  /** What a turn of the loop does once `count` rows have been read. */
  function Decide(list: seq<Migration>, direction: int, limit: nat, count: nat): Turn
    requires count <= |list| && limit <= |list|
  {
    if direction == 0 || (if direction > 0 then count >= limit else count <= limit) then Reached
    else if direction > 0 then Perform(list[count])
    else if list[count - 1].reversible then Perform(list[count - 1])
    else Irreversible(list[count - 1])
  }

  /** The schema part of a step. */
  function Performed(store: Store, m: Migration, down: bool): Store {
    store.(log := store.log + [if down then Down(m.entry) else Up(m.entry)])
  }

  /** The bookkeeping part of a step. */
  function Recorded(store: Store, m: Migration, down: bool): Store {
    store.(history := if down then store.history - {m.entry.version}
                      else store.history[m.entry.version := Record(TextCell(m.entry.name), TextCell(m.entry.checksum))])
  }

  function Stepped(store: Store, m: Migration, down: bool): Store {
    Recorded(Performed(store, m, down), m, down)
  }

  /** The migrations in effect after a log, when every down undoes the migration on top. */
  function Replay(log: seq<Operation>): Option<seq<Entry>> {
    if log == [] then Some([]) else
      var below := Replay(log[..|log| - 1]);
      if below.None? then None else
        match log[|log| - 1]
        case Up(entry) => Some(below.value + [entry])
        case Down(entry) =>
          if below.value != [] && below.value[|below.value| - 1] == entry
          then Some(below.value[..|below.value| - 1]) else None
  }

  /** The bookkeeping table lists exactly the migrations whose effects are in the schema. */
  ghost predicate Consistent(store: Store) {
    && Replay(store.log).Some?
    && Matches(Ordered(store.history), Replay(store.log).value)
  }

  lemma EmptyIsConsistent()
    ensures Consistent(Store(map[], [])) && forall list: seq<Migration> :: IsPrefix(map[], list, 0)
  {
  }

  lemma PrefixIsUnique(history: map<int64, Record>, list: seq<Migration>, a: nat, b: nat)
    requires IsPrefix(history, list, a) && IsPrefix(history, list, b)
    ensures a == b
  {
  }

  /**
   A history that describes the first migrations of one list describes those of another, in the same
   number, if and only if their entries are the same: an applied migration that was edited, renamed,
   removed or reordered is always noticed.
   */
  lemma EditsAreNoticed(history: map<int64, Record>, list: seq<Migration>, count: nat, edited: seq<Migration>, c: nat)
    requires IsPrefix(history, list, count)
    ensures IsPrefix(history, edited, c)
            <==> c == count && c <= |edited| && forall i | 0 <= i < c :: edited[i].entry == list[i].entry
  {
    hide Ordered;
    var rows := Ordered(history);
    if IsPrefix(history, edited, c) {
      forall i | 0 <= i < c ensures edited[i].entry == list[i].entry {
        assert RowMatches(rows[i], Entries(list[..count])[i]) && RowMatches(rows[i], Entries(edited[..c])[i]);
      }
    }
    if c == count && c <= |edited| && forall i | 0 <= i < c :: edited[i].entry == list[i].entry {
      assert Entries(edited[..c]) == Entries(list[..count]);
    }
  }

  /** The same text, handed back the other way. */
  function AsBlob(cell: Cell): Cell {
    match cell
    case TextCell(text) => BlobCell(text)
    case _ => cell
  }

  function AsBlobs(history: map<int64, Record>): map<int64, Record> {
    map v | v in history :: Record(AsBlob(history[v].name), AsBlob(history[v].checksum))
  }

  lemma {:induction false} OrderedBlobs(history: map<int64, Record>)
    ensures |Ordered(AsBlobs(history))| == |Ordered(history)|
    ensures forall i | 0 <= i < |Ordered(history)| ::
              var row := Ordered(history)[i];
              Ordered(AsBlobs(history))[i]
              == HistoryRow(row.version, Record(AsBlob(row.record.name), AsBlob(row.record.checksum)))
    decreases |history|
  {
    hide AsBlob;
    assert AsBlobs(history).Keys == history.Keys;
    if history != map[] {
      var v := Greatest(history.Keys);
      assert AsBlobs(history) - {v} == AsBlobs(history - {v});
      assert |(history - {v}).Keys| == |history.Keys - {v}|;
      OrderedBlobs(history - {v});
    }
  }

  /** A backend that hands its TEXT columns back as blobs reads the same history. */
  lemma BlobsReadAlike(history: map<int64, Record>, list: seq<Migration>, count: nat)
    ensures IsPrefix(AsBlobs(history), list, count) <==> IsPrefix(history, list, count)
  {
    hide Ordered;
    OrderedBlobs(history);
    if count <= |list| && |Ordered(history)| == count {
      forall i | 0 <= i < count
        ensures RowMatches(Ordered(AsBlobs(history))[i], list[i].entry) <==> RowMatches(Ordered(history)[i], list[i].entry)
      {
      }
    }
  }

  /** Every stored version is one of the versions of the matched prefix. */
  lemma StoredVersions(history: map<int64, Record>, list: seq<Migration>, count: nat)
    requires IsPrefix(history, list, count)
    ensures forall v | v in history :: exists i :: 0 <= i < count && list[i].entry.version == v
  {
    var rows := Ordered(history);
    OrderedIsTable(history);
    forall v | v in history ensures exists i :: 0 <= i < count && list[i].entry.version == v {
      assert HistoryRow(v, history[v]) in rows;
      var i :| 0 <= i < |rows| && rows[i] == HistoryRow(v, history[v]);
      assert RowMatches(rows[i], Entries(list[..count])[i]);
      assert list[i].entry.version == v;
    }
  }

  /** Recording the next migration of the list appends its row to the ordered history. */
  lemma UpAppends(store: Store, list: seq<Migration>, count: nat)
    requires Increasing(list) && count < |list| && IsPrefix(store.history, list, count)
    ensures list[count].entry.version !in store.history
    ensures var m := list[count].entry;
            Ordered(Stepped(store, list[count], false).history)
            == Ordered(store.history) + [HistoryRow(m.version, Record(TextCell(m.name), TextCell(m.checksum)))]
  {
    var m := list[count].entry;
    StoredVersions(store.history, list, count);
    OrderedInsert(store.history, m.version, Record(TextCell(m.name), TextCell(m.checksum)));
  }

  /** Deleting the last migration of the matched prefix removes the last row of the ordered history. */
  lemma DownDrops(store: Store, list: seq<Migration>, count: nat)
    requires 0 < count && IsPrefix(store.history, list, count)
    ensures Ordered(Stepped(store, list[count - 1], true).history) == Ordered(store.history)[..count - 1]
  {
    var rows := Ordered(store.history);
    assert RowMatches(rows[count - 1], Entries(list[..count])[count - 1]);
    OrderedDelete(store.history);
  }

  lemma StepKeepsPrefix(store: Store, list: seq<Migration>, down: bool, count: nat)
    requires Increasing(list) && IsPrefix(store.history, list, count)
    requires if down then 0 < count else count < |list|
    ensures var m := if down then list[count - 1] else list[count];
            IsPrefix(Stepped(store, m, down).history, list, if down then count - 1 else count + 1)
  {
    var rows, entries := Ordered(store.history), Entries(list[..count]);
    if down {
      DownDrops(store, list, count);
      assert Matches(rows[..count - 1], Entries(list[..count - 1])) by {
        forall i | 0 <= i < count - 1 ensures RowMatches(rows[i], list[i].entry) {
          assert RowMatches(rows[i], entries[i]);
        }
      }
    } else {
      UpAppends(store, list, count);
      forall i | 0 <= i < count ensures RowMatches(rows[i], list[i].entry) {
        assert RowMatches(rows[i], entries[i]);
      }
    }
  }

  lemma StepKeepsConsistent(store: Store, list: seq<Migration>, down: bool, count: nat)
    requires Increasing(list) && IsPrefix(store.history, list, count) && Consistent(store)
    requires if down then 0 < count else count < |list|
    ensures Consistent(Stepped(store, if down then list[count - 1] else list[count], down))
  {
    hide Ordered, Increasing;
    var rows, applied := Ordered(store.history), Replay(store.log).value;
    var m := if down then list[count - 1] else list[count];
    assert Stepped(store, m, down).log[..|store.log|] == store.log;
    if down {
      DownDrops(store, list, count);
      assert RowMatches(rows[count - 1], applied[count - 1]);
      assert RowMatches(rows[count - 1], Entries(list[..count])[count - 1]);
      assert Matches(rows[..count - 1], applied[..count - 1]) by {
        forall i | 0 <= i < count - 1 ensures RowMatches(rows[i], applied[i]) {
        }
      }
    } else {
      UpAppends(store, list, count);
    }
  }

  /**
   A chosen step keeps the bookkeeping truthful and moves the history by exactly one entry of
   the list.  This is where strictly increasing versions and ORDER BY version are needed.
   */
  lemma StepKeeps(store: Store, list: seq<Migration>, direction: int, limit: nat, count: nat)
    requires Increasing(list) && limit <= |list| && IsPrefix(store.history, list, count)
    requires Decide(list, direction, limit, count).Perform?
    ensures var m := Decide(list, direction, limit, count).migration;
            var after := Stepped(store, m, direction < 0);
            && IsPrefix(after.history, list, if direction > 0 then count + 1 else count - 1)
            && (direction > 0 ==> m.entry.version !in store.history)
            && (Consistent(store) ==> Consistent(after))
  {
    StepKeepsPrefix(store, list, direction < 0, count);
    if direction > 0 { UpAppends(store, list, count); }
    if Consistent(store) { StepKeepsConsistent(store, list, direction < 0, count); }
  }

  // ---------------------------------------------------------------- several steps

  /** The store after moving along the list from `a` applied migrations to `b`. */
  function Advance(store: Store, list: seq<Migration>, a: nat, b: nat): Store
    requires a <= |list| && b <= |list|
    decreases if a < b then b - a else a - b
  {
    if a < b then Stepped(Advance(store, list, a, b - 1), list[b - 1], false)
    else if a > b then Stepped(Advance(store, list, a, b + 1), list[b], true)
    else store
  }

  /** The operations of that move, in the order they are committed. */
  function Steps(list: seq<Migration>, a: nat, b: nat): (ops: seq<Operation>)
    requires a <= |list| && b <= |list|
    ensures |ops| == if a < b then b - a else a - b
    ensures a <= b ==> forall i | 0 <= i < b - a :: ops[i] == Up(list[a + i].entry)
    ensures b <= a ==> forall i | 0 <= i < a - b :: ops[i] == Down(list[a - 1 - i].entry)
    decreases if a < b then b - a else a - b
  {
    if a < b then Steps(list, a, b - 1) + [Up(list[b - 1].entry)]
    else if a > b then Steps(list, a, b + 1) + [Down(list[b].entry)]
    else []
  }

  lemma {:induction false} AdvanceLog(store: Store, list: seq<Migration>, a: nat, b: nat)
    requires a <= |list| && b <= |list|
    ensures Advance(store, list, a, b).log == store.log + Steps(list, a, b)
    decreases if a < b then b - a else a - b
  {
    if a < b {
      AdvanceLog(store, list, a, b - 1);
    } else if a > b {
      AdvanceLog(store, list, a, b + 1);
    }
  }

  lemma {:induction false} AdvancePrefix(store: Store, list: seq<Migration>, a: nat, b: nat)
    requires Increasing(list) && a <= |list| && b <= |list| && IsPrefix(store.history, list, a)
    ensures IsPrefix(Advance(store, list, a, b).history, list, b)
    decreases if a < b then b - a else a - b
  {
    hide IsPrefix, Increasing, Stepped;
    if a < b {
      AdvancePrefix(store, list, a, b - 1);
      StepKeepsPrefix(Advance(store, list, a, b - 1), list, false, b - 1);
    } else if a > b {
      AdvancePrefix(store, list, a, b + 1);
      StepKeepsPrefix(Advance(store, list, a, b + 1), list, true, b + 1);
    }
  }

  /** Moving along the list commits whole, consecutive steps and keeps the bookkeeping truthful. */
  lemma {:induction false} AdvanceKeeps(store: Store, list: seq<Migration>, a: nat, b: nat)
    requires Increasing(list) && a <= |list| && b <= |list|
    requires IsPrefix(store.history, list, a) && Consistent(store)
    ensures var after := Advance(store, list, a, b);
            && Consistent(after)
            && IsPrefix(after.history, list, b)
            && after.log == store.log + Steps(list, a, b)
    decreases if a < b then b - a else a - b
  {
    hide IsPrefix, Increasing, Consistent, Stepped;
    AdvanceLog(store, list, a, b);
    AdvancePrefix(store, list, a, b);
    if a < b {
      AdvanceKeeps(store, list, a, b - 1);
      StepKeepsConsistent(Advance(store, list, a, b - 1), list, false, b - 1);
    } else if a > b {
      AdvanceKeeps(store, list, a, b + 1);
      StepKeepsConsistent(Advance(store, list, a, b + 1), list, true, b + 1);
    }
  }

  /** A call that continues where another one stopped completes the same move. */
  lemma {:induction false} AdvanceResumes(store: Store, list: seq<Migration>, a: nat, b: nat, c: nat)
    requires a <= b <= c <= |list|
    ensures Advance(Advance(store, list, a, b), list, b, c) == Advance(store, list, a, c)
    decreases c
  {
    if b < c {
      AdvanceResumes(store, list, a, b, c - 1);
    }
  }

  lemma AdvanceLast(store: Store, list: seq<Migration>, a: nat, b: nat)
    requires a <= |list| && b <= |list|
    ensures a == b ==> Advance(store, list, a, b) == store
    ensures a < b ==> Advance(store, list, a, b) == Stepped(Advance(store, list, a, b - 1), list[b - 1], false)
    ensures a > b ==> Advance(store, list, a, b) == Stepped(Advance(store, list, a, b + 1), list[b], true)
  {
  }

  lemma DownInvertsUp(before: Store, above: Store, m: Migration)
    requires m.entry.version !in before.history
    requires above.history == Stepped(before, m, false).history
    ensures Stepped(above, m, true).history == before.history
  {
  }

  /** Going back down after going up gives the bookkeeping table back exactly as it was. */
  lemma {:induction false} DownUndoesUp(store: Store, list: seq<Migration>, a: nat, b: nat, c: nat)
    requires Increasing(list) && a <= c <= b <= |list| && IsPrefix(store.history, list, a)
    ensures Advance(Advance(store, list, a, b), list, b, c).history == Advance(store, list, a, c).history
    decreases b - c
  {
    hide Advance, Stepped, IsPrefix, Increasing;
    var top := Advance(store, list, a, b);
    AdvanceLast(top, list, b, c);
    if c < b {
      DownUndoesUp(store, list, a, b, c + 1);
      AdvanceLast(store, list, a, c + 1);
      AdvancePrefix(store, list, a, c);
      UpAppends(Advance(store, list, a, c), list, c);
      DownInvertsUp(Advance(store, list, a, c), Advance(top, list, b, c + 1), list[c]);
    }
  }

  // ---------------------------------------------------------------- what the log means

  function RunLog<S>(log: seq<Operation>, up: (Entry, S) -> S, down: (Entry, S) -> S, start: S): S {
    if log == [] then start else
      var before := RunLog(log[..|log| - 1], up, down, start);
      match log[|log| - 1]
      case Up(entry) => up(entry, before)
      case Down(entry) => down(entry, before)
  }

  function RunUps<S>(entries: seq<Entry>, up: (Entry, S) -> S, start: S): S {
    if entries == [] then start else up(entries[|entries| - 1], RunUps(entries[..|entries| - 1], up, start))
  }

  /**
   However the migrations act on a schema, as long as each down operation undoes its up
   operation: the committed schema is what the up operations of the recorded history build.
   */
  lemma {:induction false} SchemaIsUpsOfHistory<S(!new)>(
    log: seq<Operation>, up: (Entry, S) -> S, down: (Entry, S) -> S, start: S)
    requires Replay(log).Some?
    requires forall entry, s :: down(entry, up(entry, s)) == s
    ensures RunLog(log, up, down, start) == RunUps(Replay(log).value, up, start)
    decreases |log|
  {
    if log != [] {
      var below := Replay(log[..|log| - 1]).value;
      SchemaIsUpsOfHistory(log[..|log| - 1], up, down, start);
      match log[|log| - 1]
      case Up(entry) => assert (below + [entry])[..|below|] == below;
      case Down(entry) =>
    }
  }
}
