/** Commitment rows and the two chain sweeps over them (apps/api/src/modules/blockchain/service.ts). */
module Commitments {
  import opened Collections
  import opened Domain
  import opened Pipeline
  import opened Scores

  /** A chain_commitments row. `createdAt` orders the sweeps; the score row it belongs to is its key. */
  datatype CommitRow = CommitRow(status: CommitmentStatus, txHash: Option<string>, blockNumber: Option<int>,
      confirmedAt: Option<Instant>, createdAt: Instant)

  type Rows = map<ScoreKey, CommitRow>
  type ScoreRows = map<ScoreKey, EpochScore>

  /** How one call ends: the chain takes its transaction and the hash is written to the row (a receipt will tell whether
      the transaction succeeds), or something throws. In the second case the transaction may still have succeeded,
      when only the hash was lost, and marking the row failed may itself fail. After the hash is written nothing
      throws: audit entries swallow their own errors. */
  datatype ChainAnswer = Accepted(hash: string) | Throws(taken: bool, marked: bool)

  /** What commitEpoch is called with, when, and how the call ends. */
  datatype Call = Call(key: ScoreKey, epochSeconds: int, uptimeBps: int, hashed: HashInput, at: Instant,
      answer: ChainAnswer)

  predicate Taken(answer: ChainAnswer) {
    answer.Accepted? || answer.taken
  }

  function CommitCall(score: EpochScore, now: Instant, answer: ChainAnswer): Call {
    Call(score.key, score.key.epochStart / 1000, score.uptimeBps, score.hashed, now, answer)
  }

  // ---- Which rows a sweep takes ----

  ghost predicate Submittable(rows: Rows, scores: ScoreRows, now: Instant, key: ScoreKey) {
    && key in rows && key in scores
    && rows[key].status == Pending && rows[key].txHash.None?
    && key.epochStart + EPOCH_DURATION_MS <= now
  }

  ghost predicate Indexable(rows: Rows, scores: ScoreRows, key: ScoreKey) {
    key in rows && key in scores && rows[key].status == Pending && rows[key].txHash.Some?
  }

  /** The rows selected: at most `limit`, oldest first, and nothing eligible left out that is older. */
  ghost predicate OldestFirst(rows: Rows, eligible: ScoreKey -> bool, limit: nat, batch: seq<ScoreKey>) {
    && |batch| <= limit
    && Distinct(batch)
    && (forall k :: k in batch ==> k in rows && eligible(k))
    && (forall i, j :: 0 <= i < j < |batch| ==>
        batch[i] in rows && batch[j] in rows && rows[batch[i]].createdAt <= rows[batch[j]].createdAt)
    && (forall k :: k in rows && eligible(k) && k !in batch ==>
          |batch| == limit && forall b :: b in batch ==> b in rows && rows[b].createdAt <= rows[k].createdAt)
  }

  // ---- Submission, as a function ----

  function Stored(row: CommitRow, hash: string): CommitRow {
    row.(txHash := Some(hash), status := Pending)
  }

  function Answered(row: CommitRow, answer: ChainAnswer): CommitRow {
    match answer
    case Accepted(hash) => Stored(row, hash)
    case Throws(_, marked) => if marked then row.(status := Failed) else row
  }

  datatype Submission = Submission(rows: Rows, calls: seq<Call>, hashes: seq<string>, failed: bool)

  /** The rows after the first n calls of the batch; a call that throws ends the sweep. */
  function Submitted(rows: Rows, scores: ScoreRows, batch: seq<ScoreKey>, n: nat, now: Instant,
      answers: nat -> ChainAnswer): (done: Submission)
    requires n <= |batch| && forall k :: k in batch ==> k in rows && k in scores
    ensures |done.calls| == |done.hashes| + (if done.failed then 1 else 0) <= n
  {
    if n == 0 then Submission(rows, [], [], false)
    else
      var before := Submitted(rows, scores, batch, n - 1, now, answers);
      if before.failed then before
      else
        var key, answer := batch[n - 1], answers(n - 1);
        Submission(
          before.rows[key := Answered(rows[key], answer)],
          before.calls + [CommitCall(scores[key], now, answer)],
          if answer.Accepted? then before.hashes + [answer.hash] else before.hashes,
          !answer.Accepted?)
  }

  datatype SubmitResult =
    | SweepDone(scanned: nat, submitted: nat, skipped: nat, txHashes: seq<string>)
    | SweepThrew

  // ---- Confirmation ----

  datatype Receipt = Receipt(status: Option<int>, blockNumber: int)

  /** What looking up one receipt comes to. Breaks: the lookup, or writing down its result, throws. */
  datatype Lookup = Found(receipt: Option<Receipt>) | Breaks

  datatype ConfirmationUpdate = ConfirmationUpdate(status: CommitmentStatus, blockNumber: int,
      confirmedAt: Option<Instant>)

  function ConfirmationUpdateFromReceipt(receipt: Option<Receipt>, now: Instant): Option<ConfirmationUpdate> {
    match receipt
    case None => None
    case Some(r) =>
      if r.status.None? then None
      else
        var status := if r.status.value == 1 then Confirmed else Failed;
        Some(ConfirmationUpdate(status, r.blockNumber, if status == Confirmed then Some(now) else None))
  }

  function Updated(row: CommitRow, update: Option<ConfirmationUpdate>): CommitRow {
    match update
    case None => row
    case Some(u) => row.(status := u.status, blockNumber := Some(u.blockNumber), confirmedAt := u.confirmedAt)
  }

  function LookedUp(row: CommitRow, receipts: string -> Lookup): Lookup {
    match row.txHash
    case None => Found(None)
    case Some(hash) => receipts(hash)
  }

  /** The answer for one row: the receipt of its transaction. */
  function UpdateFor(row: CommitRow, receipts: string -> Lookup, now: Instant): Option<ConfirmationUpdate> {
    match LookedUp(row, receipts)
    case Breaks => None
    case Found(receipt) => ConfirmationUpdateFromReceipt(receipt, now)
  }

  /** How many rows of the batch are dealt with before a lookup breaks. */
  function Reached(rows: Rows, batch: seq<ScoreKey>, receipts: string -> Lookup): (n: nat)
    requires forall k :: k in batch ==> k in rows
    ensures n <= |batch|
    ensures forall j :: 0 <= j < n ==> batch[j] in rows && LookedUp(rows[batch[j]], receipts).Found?
    ensures n < |batch| ==> batch[n] in rows && LookedUp(rows[batch[n]], receipts).Breaks?
  {
    if batch == [] then 0
    else
      var last := |batch| - 1;
      var before := Reached(rows, batch[..last], receipts);
      if before == last && LookedUp(rows[batch[last]], receipts).Found? then before + 1 else before
  }

  /** Indexing touches the rows of the batch, each by its own receipt, and no other. */
  function Indexed(rows: Rows, batch: seq<ScoreKey>, receipts: string -> Lookup, now: Instant): Rows {
    map k | k in rows :: if k in batch then Updated(rows[k], UpdateFor(rows[k], receipts, now)) else rows[k]
  }

  datatype IndexResult =
    | IndexResult(scanned: nat, confirmed: nat, failed: nat, stillPending: nat, txHashes: seq<string>)
    | IndexThrew

  /** How many of the batch's updates satisfy a condition. */
  ghost function CountUpdates(rows: Rows, batch: seq<ScoreKey>, receipts: string -> Lookup, now: Instant,
      want: Option<CommitmentStatus>): nat
    requires forall k :: k in batch ==> k in rows
  {
    if batch == [] then 0
    else
      var last := |batch| - 1;
      var status := StatusOf(UpdateFor(rows[batch[last]], receipts, now));
      CountUpdates(rows, batch[..last], receipts, now, want) + if status == want then 1 else 0
  }

  /** The hashes of the batch's updated rows, in its order. */
  ghost function UpdatedHashes(rows: Rows, batch: seq<ScoreKey>, receipts: string -> Lookup, now: Instant): seq<string>
    requires forall k :: k in batch ==> k in rows && rows[k].txHash.Some?
  {
    if batch == [] then []
    else
      var last := |batch| - 1;
      assert batch[last] in batch;
      UpdatedHashes(rows, batch[..last], receipts, now) +
      if UpdateFor(rows[batch[last]], receipts, now).Some? then [rows[batch[last]].txHash.value] else []
  }

  lemma NoHashes(rows: Rows, receipts: string -> Lookup, now: Instant)
    ensures UpdatedHashes(rows, [], receipts, now) == []
  {
  }

  lemma HashesOneMore(rows: Rows, batch: seq<ScoreKey>, i: nat, receipts: string -> Lookup, now: Instant)
    requires i < |batch| && forall k :: k in batch ==> k in rows && rows[k].txHash.Some?
    ensures batch[i] in batch
    ensures UpdatedHashes(rows, batch[..i + 1], receipts, now) ==
            UpdatedHashes(rows, batch[..i], receipts, now) +
            if UpdateFor(rows[batch[i]], receipts, now).Some? then [rows[batch[i]].txHash.value] else []
  {
    assert batch[..i + 1][..i] == batch[..i];
  }

  // ---- The loops ----

  class CommitmentTable {
    var rows: Rows
    var calls: seq<Call>

    constructor (rows: Rows)
      ensures this.rows == rows && calls == []
    {
      this.rows := rows;
      calls := [];
    }

    /** The submission sweep over the selected rows. */
    method SubmitPendingCommitmentsWithClient(scores: ScoreRows, batch: seq<ScoreKey>, now: Instant,
        answers: nat -> ChainAnswer)
      returns (result: SubmitResult)
      requires Distinct(batch) && forall k :: k in batch ==> k in rows && k in scores
      modifies this
      ensures var done := Submitted(old(rows), scores, batch, |batch|, now, answers);
              && rows == done.rows && calls == old(calls) + done.calls
              && result == if done.failed then SweepThrew
                  else SweepDone(|batch|, |done.hashes|, |batch| - |done.hashes|, done.hashes)
    {
      hide CommitCall, Answered, Submitted;
      ghost var before := calls;
      SubmittedNothing(rows, scores, batch, now, answers);
      var txHashes: seq<string> := [];
      ghost var made: seq<Call> := [];
      var i := 0;
      while i < |batch|
        invariant 0 <= i <= |batch| && calls == before + made
        invariant rows.Keys == old(rows.Keys)
        invariant forall j :: i <= j < |batch| ==> rows[batch[j]] == old(rows)[batch[j]]
        invariant Submitted(old(rows), scores, batch, i, now, answers) == Submission(rows, made, txHashes, false)
      {
        var key, answer := batch[i], answers(i);
        assert key in batch;
        SubmittedOneMore(old(rows), scores, batch, i, now, answers);
        calls := calls + [CommitCall(scores[key], now, answer)];
        made := made + [CommitCall(scores[key], now, answer)];
        rows := rows[key := Answered(rows[key], answer)];
        if answer.Throws? {
          FailureEndsSweep(old(rows), scores, batch, i + 1, |batch|, now, answers);
          return SweepThrew;
        }
        txHashes := txHashes + [answer.hash];
        i := i + 1;
      }
      result := SweepDone(|batch|, |txHashes|, |batch| - |txHashes|, txHashes);
    }

    /** The confirmation sweep over the selected rows. */
    method IndexPendingConfirmationsWithClient(batch: seq<ScoreKey>, receipts: string -> Lookup, now: Instant)
      returns (result: IndexResult)
      requires Distinct(batch) && forall k :: k in batch ==> k in rows && rows[k].txHash.Some?
      modifies this`rows
      ensures var n := Reached(old(rows), batch, receipts);
              rows == Indexed(old(rows), batch[..n], receipts, now) && (result.IndexThrew? <==> n < |batch|)
      ensures result.IndexResult? ==>
                && result.confirmed == CountUpdates(old(rows), batch, receipts, now, Some(Confirmed))
                && result.stillPending == CountUpdates(old(rows), batch, receipts, now, None)
                && result.scanned == |batch| == result.confirmed + result.failed + result.stillPending
                && |result.txHashes| == result.confirmed + result.failed
                && result.txHashes == UpdatedHashes(old(rows), batch, receipts, now)
    {
      hide Reached, CountUpdates, Indexed, UpdatedHashes;
      NoHashes(rows, receipts, now);
      result := IndexResult(|batch|, 0, 0, 0, []);
      IndexedNothing(rows, receipts, now);
      var i := 0;
      while i < |batch|
        invariant 0 <= i <= |batch|
        invariant rows == Indexed(old(rows), batch[..i], receipts, now)
        invariant i <= Reached(old(rows), batch, receipts)
        invariant result.IndexResult?
        invariant result.scanned == |batch| && result.confirmed + result.failed + result.stillPending == i
        invariant result.confirmed == CountUpdates(old(rows), batch[..i], receipts, now, Some(Confirmed))
        invariant result.stillPending == CountUpdates(old(rows), batch[..i], receipts, now, None)
        invariant |result.txHashes| == result.confirmed + result.failed
        invariant result.txHashes == UpdatedHashes(old(rows), batch[..i], receipts, now)
      {
        var key := batch[i];
        assert key in batch && batch[i] !in batch[..i];
        IndexedOneMore(old(rows), batch, i, receipts, now);
        HashesOneMore(old(rows), batch, i, receipts, now);
        var hash := rows[key].txHash.value;
        if receipts(hash).Breaks? {
          return IndexThrew;
        }
        var update := ConfirmationUpdateFromReceipt(receipts(hash).receipt, now);
        match update {
          case None =>
            result := result.(stillPending := result.stillPending + 1);
          case Some(u) =>
            rows := rows[key := Updated(rows[key], update)];
            if u.status == Confirmed {
              result := result.(confirmed := result.confirmed + 1);
            } else {
              result := result.(failed := result.failed + 1);
            }
            result := result.(txHashes := result.txHashes + [hash]);
        }
        i := i + 1;
      }
      assert batch[..i] == batch;
    }
  }

  lemma SubmittedNothing(rows: Rows, scores: ScoreRows, batch: seq<ScoreKey>, now: Instant, answers: nat -> ChainAnswer)
    requires forall k :: k in batch ==> k in rows && k in scores
    ensures Submitted(rows, scores, batch, 0, now, answers) == Submission(rows, [], [], false)
  {
  }

  lemma SubmittedOneMore(rows: Rows, scores: ScoreRows, batch: seq<ScoreKey>, i: nat, now: Instant,
      answers: nat -> ChainAnswer)
    requires i < |batch| && forall k :: k in batch ==> k in rows && k in scores
    requires !Submitted(rows, scores, batch, i, now, answers).failed
    ensures batch[i] in batch
    ensures var before, done := Submitted(rows, scores, batch, i, now, answers),
        Submitted(rows, scores, batch, i + 1, now, answers);
            && done.rows == before.rows[batch[i] := Answered(rows[batch[i]], answers(i))]
            && done.calls == before.calls + [CommitCall(scores[batch[i]], now, answers(i))]
            && done.hashes == (if answers(i).Accepted? then before.hashes + [answers(i).hash] else before.hashes)
            && done.failed == !answers(i).Accepted?
  {
  }

  lemma {:induction false} FailureEndsSweep(rows: Rows, scores: ScoreRows, batch: seq<ScoreKey>, n: nat, m: nat,
      now: Instant, answers: nat -> ChainAnswer)
    requires n <= m <= |batch| && forall k :: k in batch ==> k in rows && k in scores
    requires Submitted(rows, scores, batch, n, now, answers).failed
    ensures Submitted(rows, scores, batch, m, now, answers) == Submitted(rows, scores, batch, n, now, answers)
  {
    if n < m {
      FailureEndsSweep(rows, scores, batch, n, m - 1, now, answers);
    }
  }

  lemma IndexedNothing(rows: Rows, receipts: string -> Lookup, now: Instant)
    ensures Indexed(rows, [], receipts, now) == rows
    ensures forall want :: CountUpdates(rows, [], receipts, now, want) == 0
  {
  }

  function StatusOf(update: Option<ConfirmationUpdate>): Option<CommitmentStatus> {
    match update
    case None => None
    case Some(u) => Some(u.status)
  }

  lemma IndexedOneMore(rows: Rows, batch: seq<ScoreKey>, i: nat, receipts: string -> Lookup, now: Instant)
    requires i < |batch| && Distinct(batch) && forall k :: k in batch ==> k in rows
    ensures batch[i] in rows && batch[i] in Indexed(rows, batch[..i], receipts, now)
    ensures var before, key := Indexed(rows, batch[..i], receipts, now), batch[i];
            && before[key] == rows[key]
            && Indexed(rows, batch[..i + 1], receipts, now) ==
               before[key := Updated(rows[key], UpdateFor(rows[key], receipts, now))]
    ensures forall want :: CountUpdates(rows, batch[..i + 1], receipts, now, want) ==
                           CountUpdates(rows, batch[..i], receipts, now, want) +
                           if StatusOf(UpdateFor(rows[batch[i]], receipts, now)) == want then 1 else 0
  {
    assert batch[i] in batch;
    assert batch[..i + 1] == batch[..i] + [batch[i]];
    assert batch[..i + 1][..i] == batch[..i];
  }

  /** The calls of a sweep follow the batch; all but the last are accepted, and a sweep that ends early ends
      on the first call that throws. */
  lemma {:induction false} CallsFollowBatch(rows: Rows, scores: ScoreRows, batch: seq<ScoreKey>, n: nat,
      now: Instant, answers: nat -> ChainAnswer)
    requires n <= |batch| && forall k :: k in batch ==> k in rows && k in scores
    ensures var done := Submitted(rows, scores, batch, n, now, answers);
            && (forall j :: 0 <= j < |done.calls| ==> done.calls[j] == CommitCall(scores[batch[j]], now, answers(j)))
            && (forall j :: 0 <= j < |done.hashes| ==> answers(j) == Accepted(done.hashes[j]))
            && (if done.failed then answers(|done.hashes|).Throws? else |done.hashes| == n)
  {
    hide CommitCall, Answered, Submitted;
    if n == 0 {
      SubmittedNothing(rows, scores, batch, now, answers);
    } else {
      CallsFollowBatch(rows, scores, batch, n - 1, now, answers);
      if Submitted(rows, scores, batch, n - 1, now, answers).failed {
        FailureEndsSweep(rows, scores, batch, n - 1, n, now, answers);
      } else {
        SubmittedOneMore(rows, scores, batch, n - 1, now, answers);
      }
    }
  }

  /** A row changes by the answer to its own call alone. */
  ghost predicate RowSettled(row: CommitRow, before: CommitRow, batch: seq<ScoreKey>, called: nat,
      answers: nat -> ChainAnswer, key: ScoreKey)
    requires called <= |batch|
  {
    && (key !in batch[..called] ==> row == before)
    && forall j :: 0 <= j < called && batch[j] == key ==> row == Answered(before, answers(j))
  }

  /** The rows behind a failing call, and those outside the batch, are not touched. */
  lemma {:induction false} RowAfterSweep(rows: Rows, scores: ScoreRows, batch: seq<ScoreKey>, n: nat, now: Instant,
      answers: nat -> ChainAnswer, key: ScoreKey)
    requires n <= |batch| && Distinct(batch) && (forall k :: k in batch ==> k in rows && k in scores) && key in rows
    ensures var done := Submitted(rows, scores, batch, n, now, answers);
            && done.rows.Keys == rows.Keys
            && RowSettled(done.rows[key], rows[key], batch, |done.calls|, answers, key)
  {
    hide CommitCall, Answered, Submitted, RowSettled;
    if n == 0 {
      SubmittedNothing(rows, scores, batch, now, answers);
      NotYetCalled(rows[key], batch, 0, answers, key);
    } else {
      RowAfterSweep(rows, scores, batch, n - 1, now, answers, key);
      CallsFollowBatch(rows, scores, batch, n - 1, now, answers);
      if Submitted(rows, scores, batch, n - 1, now, answers).failed {
        FailureEndsSweep(rows, scores, batch, n - 1, n, now, answers);
      } else {
        SubmittedOneMore(rows, scores, batch, n - 1, now, answers);
        SettledOneMore(Submitted(rows, scores, batch, n - 1, now, answers).rows[key], rows[key], batch, n - 1,
            answers, key);
      }
    }
  }

  lemma NotYetCalled(row: CommitRow, batch: seq<ScoreKey>, called: nat, answers: nat -> ChainAnswer, key: ScoreKey)
    requires called <= |batch| && key !in batch[..called]
    ensures RowSettled(row, row, batch, called, answers, key)
  {
  }

  lemma SettledOneMore(row: CommitRow, before: CommitRow, batch: seq<ScoreKey>, called: nat,
      answers: nat -> ChainAnswer, key: ScoreKey)
    requires called < |batch| && Distinct(batch)
    requires RowSettled(row, before, batch, called, answers, key)
    ensures RowSettled(if batch[called] == key then Answered(before, answers(called))
        else row, before, batch, called + 1, answers, key)
  {
    hide Answered;
    assert batch[..called + 1] == batch[..called] + [batch[called]];
  }

  /** What a receipt does to an indexed row: status 1 confirms it, any other status fails it, no receipt or a
      receipt without status leaves it as it was; the hash stays in every case. */
  lemma ReceiptDecides(rows: Rows, batch: seq<ScoreKey>, receipts: string -> Lookup, now: Instant, key: ScoreKey)
    requires key in rows && key in batch && rows[key].status == Pending && rows[key].txHash.Some?
    requires receipts(rows[key].txHash.value).Found?
    ensures var receipt, row := receipts(rows[key].txHash.value).receipt, Indexed(rows, batch, receipts, now)[key];
            var known := receipt.Some? && receipt.value.status.Some?;
            && (row.status == Confirmed <==> known && receipt.value.status.value == 1)
            && (row.status == Failed <==> known && receipt.value.status.value != 1)
            && (known ==> row.blockNumber == Some(receipt.value.blockNumber))
            && (known ==> row.confirmedAt == if row.status == Confirmed then Some(now) else None)
            && (!known ==> row == rows[key])
            && row.txHash == rows[key].txHash
  {
  }
}
