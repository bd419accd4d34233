/** The two cursors over a query's rows: the result that is stepped, and the stream that is fetched. */
module Cursors {
  import opened Common
  import opened Values

  type Error = string

  // ---------------------------------------------------------------- the result

  /** A result.  `rows` and `ending` are what the driver will deliver: rows, and then perhaps an error. */
  class Result {
    const columns: seq<Option<string>>
    const rows: seq<Row>
    const ending: Option<Error>
    var position: nat
    var currentRow: Option<Row>
    var error: Option<Error>
    var exhausted: bool
    var closed: bool

    predicate Valid()
      reads this
    {
      && position <= |rows|
      && (exhausted && !closed ==> position == |rows| && error == ending)
      && (!exhausted ==> error == None && !closed)
    }

    function Remaining(): seq<Row>
      reads this
      requires Valid()
    {
      if exhausted then [] else rows[position..]
    }

    /** A closed result has no driver to ask. */
    function ColumnNames(): seq<Option<string>>
      reads this
    {
      if closed then [] else columns
    }

    constructor (columns: seq<Option<string>>, rows: seq<Row>, ending: Option<Error>)
      ensures Valid() && Remaining() == rows && !exhausted && !closed && currentRow == None
      ensures this.columns == columns && this.rows == rows && this.ending == ending && ColumnNames() == columns
    {
      this.columns, this.rows, this.ending := columns, rows, ending;
      position, currentRow, error, exhausted, closed := 0, None, None, false, false;
    }

    /** One step.  No row means the end or an error, and both are for good. */
    method Next() returns (more: bool)
      requires Valid()
      modifies this
      ensures Valid() && closed == old(closed)
      ensures more <==> old(Remaining()) != []
      ensures more ==> currentRow == Some(old(Remaining())[0]) && Remaining() == old(Remaining())[1..]
      ensures more ==> error == None && !exhausted
      ensures more ==> position == old(position) + 1 && currentRow == Some(rows[old(position)])
      ensures more <==> old(!exhausted && position < |rows|)
      ensures !more ==> exhausted && error == if old(exhausted) then old(error) else ending
      ensures !more && !closed ==> currentRow == None
    {
      if closed {
        return false;
      }
      currentRow := None;
      if exhausted {
        return false;
      }
      if position == |rows| {
        error := ending;
        exhausted := true;
        return false;
      }
      currentRow := Some(rows[position]);
      position := position + 1;
      return true;
    }

    method GetAll() returns (all: seq<Row>)
      requires Valid()
      modifies this
      ensures Valid() && Remaining() == []
      ensures all == old(Remaining())
      ensures error == if old(exhausted) then old(error) else ending
    {
      ghost var rest := Remaining();
      all := [];
      var more := Next();
      HeadTail([], rest);
      while more
        invariant Valid()
        invariant more ==> currentRow.Some? && !exhausted && !old(exhausted)
        invariant more ==> rest == all + [currentRow.value] + Remaining()
        invariant !more ==> rest == all
        invariant !more ==> exhausted && error == if old(exhausted) then old(error) else ending
        decreases more, |Remaining()|
      {
        all := all + [currentRow.value];
        HeadTail(all, Remaining());
        more := Next();
      }
    }

    method GetFirst() returns (first: Option<Row>)
      requires Valid()
      modifies this
      ensures Valid()
      ensures first == if old(Remaining()) == [] then None else Some(old(Remaining())[0])
      ensures Remaining() == if old(Remaining()) == [] then [] else old(Remaining())[1..]
    {
      var more := Next();
      first := if more then currentRow else None;
    }

    method Close()
      requires Valid()
      modifies this
      ensures Valid() && closed && exhausted && Remaining() == [] && error == old(error) && ColumnNames() == []
    {
      closed, exhausted := true, true;
    }
  }

  lemma HeadTail<T>(s: seq<T>, rest: seq<T>)
    ensures s + rest == if rest == [] then s else s + [rest[0]] + rest[1..]
  {
  }

  // ---------------------------------------------------------------- the row stream

  datatype Stream = Stream(rows: seq<Row>, ending: Option<Error>, position: nat, atEnd: bool, closed: bool)

  /** What the caller of a fetch gets; a cancelled one gets its answer from the cancellation. */
  datatype Answer = Batch(rows: seq<Row>) | Failed(error: Error) | Cancelled

  predicate Valid(s: Stream) {
    && s.position <= |s.rows|
    && (s.closed ==> s.atEnd)
    && (s.atEnd && !s.closed ==> s.position == |s.rows|)
  }

  function Min(a: nat, b: nat): nat {
    if a < b then a else b
  }

  /** The rows that a fetch takes off the cursor. */
  function Taken(s: Stream, n: nat, mayRun: bool): seq<Row>
    requires Valid(s)
  {
    if !mayRun || s.atEnd then [] else s.rows[s.position..Min(s.position + n, |s.rows|)]
  }

  function AfterFetch(s: Stream, n: nat, mayRun: bool): (t: Stream)
    requires Valid(s)
    ensures Valid(t)
  {
    var taken := Taken(s, n, mayRun);
    s.(position := s.position + |taken|, atEnd := s.atEnd || (mayRun && |taken| < n))
  }

  function AnswerOf(s: Stream, n: nat, mayRun: bool, mayReturn: bool): Answer
    requires Valid(s)
  {
    var taken := Taken(s, n, mayRun);
    if !mayRun || !mayReturn then Cancelled
    else if !s.atEnd && |taken| < n && s.ending.Some? then Failed(s.ending.value)
    else Batch(taken)
  }

  class RowStream {
    const rows: seq<Row>
    const ending: Option<Error>
    var position: nat
    var atEnd: bool
    var closed: bool

    function Contents(): Stream
      reads this
    {
      Stream(rows, ending, position, atEnd, closed)
    }

    constructor (rows: seq<Row>, ending: Option<Error>)
      ensures Valid(Contents()) && Contents() == Stream(rows, ending, 0, false, false)
    {
      this.rows, this.ending := rows, ending;
      position, atEnd, closed := 0, false, false;
    }

    /** The job of a fetch, as cancellation lets it run and answer. */
    method FetchJob(n: nat, mayRun: bool, mayReturn: bool) returns (answer: Answer)
      requires Valid(Contents()) && n > 0
      modifies this
      ensures Contents() == AfterFetch(old(Contents()), n, mayRun)
      ensures answer == AnswerOf(old(Contents()), n, mayRun, mayReturn)
      // a failure is reported, as what it was, by the fetch that ran into it and may answer
      ensures answer.Failed? <==> mayRun && mayReturn && !old(atEnd) && old(position) + n > |rows| && ending.Some?
      ensures answer.Failed? ==> answer.error == ending.value
      ensures answer.Batch? ==> mayRun && mayReturn && answer.rows == rows[old(position)..position]
    {
      if !mayRun {
        return Cancelled;
      }
      var batch: seq<Row> := [];
      var error: Option<Error> := None;
      var i := 0;
      while i < n && !atEnd && !closed
        invariant 0 <= i <= n && Valid(Contents()) && closed == old(closed)
        invariant !atEnd ==> i == |batch| && !old(atEnd)
        invariant old(position) <= position && batch == rows[old(position)..position]
        invariant |batch| <= n && (old(atEnd) ==> atEnd && batch == [])
        invariant error == if atEnd && !old(atEnd) then ending else None
        invariant atEnd && !old(atEnd) ==> |batch| < n && position == |rows|
        decreases n - i, !atEnd
      {
        if position == |rows| {
          error := ending;
          atEnd := true;
          break;
        }
        batch := batch + [rows[position]];
        position := position + 1;
        i := i + 1;
      }
      if !mayReturn {
        return Cancelled;
      }
      if error.Some? {
        return Failed(error.value);
      }
      return Batch(batch);
    }

    method CloseCursor()
      requires Valid(Contents())
      modifies this
      ensures Valid(Contents()) && Contents() == old(Contents()).(atEnd := true, closed := true)
    {
      closed, atEnd := true, true;
    }
  }

  // ---------------------------------------------------------------- any sequence of fetches

  datatype Request = Request(n: nat, mayRun: bool, mayReturn: bool)

  function Fetched(s: Stream, requests: seq<Request>): Stream
    requires Valid(s)
  {
    if requests == [] then s else
      AfterFetch(Fetched(s, requests[..|requests| - 1]), requests[|requests| - 1].n, requests[|requests| - 1].mayRun)
  }

  lemma {:induction false} FetchedKeepsValid(s: Stream, requests: seq<Request>)
    requires Valid(s)
    ensures Valid(Fetched(s, requests))
    ensures var t := Fetched(s, requests);
            t.rows == s.rows && t.ending == s.ending && t.closed == s.closed && s.position <= t.position
  {
    if requests != [] {
      FetchedKeepsValid(s, requests[..|requests| - 1]);
    }
  }

  /** The answer to the i-th of several fetches. */
  function AnswerTo(s: Stream, requests: seq<Request>, i: nat): Answer
    requires Valid(s) && i < |requests|
  {
    FetchedIsValid(s, requests[..i]);
    AnswerOf(Fetched(s, requests[..i]), requests[i].n, requests[i].mayRun, requests[i].mayReturn)
  }

  lemma FetchedIsValid(s: Stream, requests: seq<Request>)
    requires Valid(s)
    ensures Valid(Fetched(s, requests))
  {
    FetchedKeepsValid(s, requests);
  }

  /** The batches that were delivered, end to end. */
  function Delivered(s: Stream, requests: seq<Request>): seq<Row>
    requires Valid(s)
  {
    if requests == [] then [] else
      var i := |requests| - 1;
      var answer := AnswerTo(s, requests, i);
      Delivered(s, requests[..i]) + if answer.Batch? then answer.rows else []
  }

  /** The rows that the i-th of several fetches took off the cursor. */
  function TakenBy(s: Stream, requests: seq<Request>, i: nat): seq<Row>
    requires Valid(s) && i < |requests|
  {
    FetchedIsValid(s, requests[..i]);
    Taken(Fetched(s, requests[..i]), requests[i].n, requests[i].mayRun)
  }

  /** The rows that were taken by fetches that did not deliver them, end to end. */
  function Lost(s: Stream, requests: seq<Request>): seq<Row>
    requires Valid(s)
  {
    if requests == [] then [] else
      var i := |requests| - 1;
      Lost(s, requests[..i]) + if AnswerTo(s, requests, i).Batch? then [] else TakenBy(s, requests, i)
  }

  /** A fetch is short exactly when it reached the end, and moves the cursor past what it takes. */
  lemma ShortBatchIsEnd(s: Stream, n: nat, mayRun: bool, mayReturn: bool)
    requires Valid(s)
    ensures var t, taken := AfterFetch(s, n, mayRun), Taken(s, n, mayRun);
            && t.rows == s.rows && s.position <= t.position <= |s.rows|
            && taken == s.rows[s.position..t.position]
            && (t.atEnd <==> s.atEnd || (mayRun && |taken| < n))
    ensures var answer := AnswerOf(s, n, mayRun, mayReturn);
            answer.Batch? ==> answer.rows == Taken(s, n, mayRun)
  {
  }

  lemma LastFetch(s: Stream, requests: seq<Request>)
    requires Valid(s) && requests != []
    ensures var i := |requests| - 1;
            var (before, after) := (Fetched(s, requests[..i]), Fetched(s, requests));
            && Valid(before) && Valid(after) && after.rows == before.rows == s.rows && after.ending == s.ending
            && s.position <= before.position <= after.position <= |s.rows|
            && TakenBy(s, requests, i) == s.rows[before.position..after.position]
            && (AnswerTo(s, requests, i).Batch? ==> AnswerTo(s, requests, i).rows == TakenBy(s, requests, i))
  {
    hide Taken, AfterFetch, AnswerOf;
    var i := |requests| - 1;
    var before, request := Fetched(s, requests[..i]), requests[i];
    FetchedKeepsValid(s, requests[..i]);
    assert Fetched(s, requests) == AfterFetch(before, request.n, request.mayRun);
    ShortBatchIsEnd(before, request.n, request.mayRun, request.mayReturn);
    FetchedKeepsValid(s, requests);
  }

  /** Every row that the cursor has passed was delivered or lost, whatever was cancelled and whatever failed. */
  lemma {:induction false} RowsAreConserved(s: Stream, requests: seq<Request>)
    requires Valid(s)
    ensures Valid(Fetched(s, requests))
    ensures |Delivered(s, requests)| + |Lost(s, requests)| == Fetched(s, requests).position - s.position
    ensures s.position <= Fetched(s, requests).position <= |s.rows|
    ensures Lost(s, requests) == [] ==>
              Delivered(s, requests) == s.rows[s.position..Fetched(s, requests).position]
  {
    hide AnswerTo, TakenBy, AfterFetch, Valid;
    FetchedKeepsValid(s, requests);
    if requests != [] {
      var i := |requests| - 1;
      RowsAreConserved(s, requests[..i]);
      LastFetch(s, requests);
      var before, after := Fetched(s, requests[..i]).position, Fetched(s, requests).position;
      Slices(s.rows, s.position, before, after);
    }
  }

  lemma Slices<T>(s: seq<T>, a: nat, b: nat, c: nat)
    requires a <= b <= c <= |s|
    ensures s[a..b] + s[b..c] == s[a..c]
  {
  }

  /** How many rows the fetches that run ask for. */
  function Asked(requests: seq<Request>): nat {
    if requests == [] then 0 else
      var last := requests[|requests| - 1];
      Asked(requests[..|requests| - 1]) + if last.mayRun then last.n else 0
  }

  /** The cursor is past what was asked for, or at the end of the rows, which it finds when asked for more. */
  lemma {:induction false} AskedIsPassed(s: Stream, requests: seq<Request>)
    requires Valid(s)
    ensures Valid(Fetched(s, requests))
    ensures var t := Fetched(s, requests);
            && t.rows == s.rows && t.ending == s.ending && t.closed == s.closed
            && t.position == (if s.atEnd then s.position else Min(s.position + Asked(requests), |s.rows|))
            && (t.atEnd <==> s.atEnd || s.position + Asked(requests) > |s.rows|)
  {
    if requests != [] {
      AskedIsPassed(s, requests[..|requests| - 1]);
    }
  }

  /**
   The i-th fetch loses no row: it does not run, it asks for none or comes when there are none left,
   or it may answer and does not run into an error.
   */
  predicate Harmless(s: Stream, requests: seq<Request>, i: nat)
    requires i < |requests|
  {
    var request := requests[i];
    var before := s.position + Asked(requests[..i]);
    || s.atEnd || !request.mayRun || request.n == 0 || before >= |s.rows|
    || (request.mayReturn && (s.ending.None? || before + request.n <= |s.rows|))
  }

  predicate Lossless(s: Stream, requests: seq<Request>) {
    forall i | 0 <= i < |requests| :: Harmless(s, requests, i)
  }

  lemma HarmlessTakesNothingInVain(s: Stream, requests: seq<Request>, i: nat)
    requires Valid(s) && i < |requests|
    ensures Harmless(s, requests, i) <==> AnswerTo(s, requests, i).Batch? || TakenBy(s, requests, i) == []
  {
    AskedIsPassed(s, requests[..i]);
  }

  lemma {:induction false} LosslessLosesNothing(s: Stream, requests: seq<Request>)
    requires Valid(s)
    ensures Lost(s, requests) == [] <==> Lossless(s, requests)
  {
    hide Harmless, AnswerTo, TakenBy;
    if requests != [] {
      var i := |requests| - 1;
      var front := requests[..i];
      LosslessLosesNothing(s, front);
      HarmlessTakesNothingInVain(s, requests, i);
      forall j | 0 <= j < i ensures Harmless(s, front, j) == Harmless(s, requests, j) {
        SameHarm(s, requests, i, j);
      }
    }
  }

  lemma SameHarm(s: Stream, requests: seq<Request>, i: nat, j: nat)
    requires j < i <= |requests|
    ensures Harmless(s, requests[..i], j) == Harmless(s, requests, j)
  {
    assert requests[..i][..j] == requests[..j];
  }

  /**
   Over any sequence of fetches, cancelled or not: what is delivered is what the cursor has passed,
   in order and without a gap, if and only if every fetch that finds rows left may answer, and does not
   run into an error.
   */
  lemma DeliveredIsGapless(s: Stream, requests: seq<Request>)
    requires Valid(s)
    ensures var t := Fetched(s, requests);
            s.position <= t.position <= |s.rows|
            && (Delivered(s, requests) == s.rows[s.position..t.position] <==> Lossless(s, requests))
  {
    hide Lossless;
    FetchedKeepsValid(s, requests);
    RowsAreConserved(s, requests);
    LosslessLosesNothing(s, requests);
  }

  /**
   When the rows end without an error, fetching until a batch comes back short delivers what
   GetAll() reads, everything, if and only if no fetch lost a row on the way.
   */
  lemma DrainedIsAll(s: Stream, requests: seq<Request>)
    requires Valid(s) && !s.closed && requests != [] && s.ending == None
    requires var last := |requests| - 1;
             AnswerTo(s, requests, last).Batch? && |AnswerTo(s, requests, last).rows| < requests[last].n
    ensures Delivered(s, requests) == s.rows[s.position..] <==> Lossless(s, requests)
  {
    hide Lossless, Delivered;
    var i := |requests| - 1;
    FetchedKeepsValid(s, requests[..i]);
    FetchedKeepsValid(s, requests);
    DeliveredIsGapless(s, requests);
    var before := Fetched(s, requests[..i]);
    ShortBatchIsEnd(before, requests[i].n, requests[i].mayRun, requests[i].mayReturn);
  }

  // ---------------------------------------------------------------- what a short batch says

  /**
   A short batch should mean that the rows ended well.  When they end in an error, a fetch answers
   with one all the same if and only if it is not cancelled and the fetches before it had asked for
   more rows than there were, so that the error was theirs to report.
   */
  lemma ShortBatchAfterError(s: Stream, requests: seq<Request>, i: nat)
    requires Valid(s) && !s.atEnd && s.ending.Some? && i < |requests| && requests[i].n > 0
    ensures var answer := AnswerTo(s, requests, i);
            answer.Batch? && |answer.rows| < requests[i].n
            <==> requests[i].mayRun && requests[i].mayReturn && s.position + Asked(requests[..i]) > |s.rows|
  {
    AskedIsPassed(s, requests[..i]);
  }

  /** After a failure the next fetch answers with an empty batch, as at a clean end. */
  lemma FailureIsForgotten(s: Stream, n: nat, m: nat)
    requires Valid(s) && n > 0 && m > 0 && AnswerOf(s, n, true, true).Failed?
    ensures AnswerOf(AfterFetch(s, n, true), m, true, true) == Batch([])
    ensures AfterFetch(s, n, true).position == |s.rows|
  {
  }

  /** A fetch that is cancelled after it ran loses rows if and only if there were any for it to take. */
  lemma CancelledBatchIsLost(s: Stream, n: nat)
    requires Valid(s) && n > 0
    ensures AnswerOf(s, n, true, false) == Cancelled
    ensures AfterFetch(s, n, true).position == s.position + |Taken(s, n, true)|
    ensures Taken(s, n, true) != [] <==> !s.atEnd && s.position < |s.rows|
  {
  }
}
