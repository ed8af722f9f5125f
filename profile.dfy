/** The profile page's history lists (src/Components/ProfilePage.js): the
    quizzes and courses a user has taken are fetched item by item and merged
    into the list already shown, skipping items whose id is already there.
    Quizzes (lines 43-64) and courses (lines 84-105) follow the same rule; one
    definition serves both. */
module ProfileHistory {
  import opened Wrappers
  import Seqs

  /** The record returned by the per-item request. */
  datatype Detail = Detail(id: int, title: string)

  /** One history item: the fetched record, or the placeholder left by a
      failed per-item request, which carries a status text and no record. */
  datatype Entry = Loaded(detail: Detail) | FetchFailed(status: string)

  /** The status text of a failed per-item request. */
  const FetchErrorStatus: string := "Error fetching status"

  /** `entry.quiz?.id`: the record's id, absent for a placeholder. */
  function Key(e: Entry): (k: Option<int>)
    ensures k.Some? <==> e.Loaded?
  {
    match e
    case Loaded(d) => Some(d.id)
    case FetchFailed(_) => None
  }

  /** The per-item requests of one batch: a failed request yields a
      placeholder in its place and does not abort the batch. */
  function AttachDetails(responses: seq<Option<Detail>>): (batch: seq<Entry>)
    ensures |batch| == |responses|
    ensures forall i :: 0 <= i < |batch| ==>
      batch[i] == if responses[i].Some? then Loaded(responses[i].value) else FetchFailed(FetchErrorStatus)
  {
    seq(|responses|, i requires 0 <= i < |responses| =>
      if responses[i].Some? then Loaded(responses[i].value) else FetchFailed(FetchErrorStatus))
  }

  /** Some item of `items` has key `k`. */
  predicate KeyIn(k: Option<int>, items: seq<Entry>)
  {
    exists p :: p in items && Key(p) == k
  }

  /** The merge with `?.` on both sides of the id comparison: `prev`
      followed by the batch items whose key no item of `prev` has. */
  function Merge(prev: seq<Entry>, batch: seq<Entry>): (r: seq<Entry>)
    ensures |prev| <= |r| <= |prev| + |batch|
    ensures r[..|prev|] == prev
    ensures forall i :: |prev| <= i < |r| ==> !KeyIn(Key(r[i]), prev)
  {
    prev + Seqs.Filter(n => !KeyIn(Key(n), prev), batch)
  }

  /** The appended items keep their batch order, and every batch item whose
      key is new is appended as often as it occurs in the batch, so
      duplicates inside one batch are kept. */
  lemma MergeAppendsNewItems(prev: seq<Entry>, batch: seq<Entry>)
    ensures Seqs.IsSubsequence(Merge(prev, batch)[|prev|..], batch)
    ensures forall n :: n in batch && !KeyIn(Key(n), prev) ==> n in Merge(prev, batch)[|prev|..]
    ensures forall n :: !KeyIn(Key(n), prev) ==>
      multiset(Merge(prev, batch)[|prev|..])[n] == multiset(batch)[n]
  {
    var keep := n => !KeyIn(Key(n), prev);
    assert Merge(prev, batch)[|prev|..] == Seqs.Filter(keep, batch);
    Seqs.FilterIsSubsequence(keep, batch);
    Seqs.FilterMultiset(keep, batch);
    forall n | n in batch && !KeyIn(Key(n), prev) ensures n in Seqs.Filter(keep, batch) {
      Seqs.FilterMembership(keep, batch, n);
    }
  }

  /** Merging the same batch again adds nothing. */
  lemma MergeIdempotent(prev: seq<Entry>, batch: seq<Entry>)
    ensures Merge(Merge(prev, batch), batch) == Merge(prev, batch)
  {
    var once := Merge(prev, batch);
    MergeAppendsNewItems(prev, batch);
    forall i | 0 <= i < |batch| ensures KeyIn(Key(batch[i]), once) {
      var n := batch[i];
      if KeyIn(Key(n), prev) {
        var p :| p in prev && Key(p) == Key(n);
        assert p == once[..|prev|][IndexOf(prev, p)];
      } else {
        assert n in once[|prev|..];
      }
    }
    Seqs.FilterDropsAll(n => !KeyIn(Key(n), once), batch);
  }

  function IndexOf(s: seq<Entry>, x: Entry): (i: nat)
    requires x in s
    ensures i < |s| && s[i] == x
  {
    if s[0] == x then 0 else 1 + IndexOf(s[1..], x)
  }

  /** Into the freshly reset (empty) list a batch goes unchanged, duplicates
      within it included. */
  lemma MergeIntoEmpty(batch: seq<Entry>)
    ensures Merge([], batch) == batch
  {
    Seqs.FilterKeepsAll(n => !KeyIn(Key(n), []), batch);
  }

  datatype TypeError = ReadOfUndefined

  /** `prev.some(p => p.quiz.id === n.quiz.id)` as written: reading `.id`
      of a placeholder's missing record throws. */
  function SomeSameIdAsWritten(prev: seq<Entry>, n: Entry): Result<bool, TypeError>
  {
    if prev == [] then Ok(false)
    else if prev[0].FetchFailed? || n.FetchFailed? then Err(ReadOfUndefined)
    else if prev[0].detail.id == n.detail.id then Ok(true)
    else SomeSameIdAsWritten(prev[1..], n)
  }

  /** The batch filter as written, stopping at the first throw. */
  function NewItemsAsWritten(prev: seq<Entry>, batch: seq<Entry>): Result<seq<Entry>, TypeError>
  {
    if batch == [] then Ok([])
    else
      match SomeSameIdAsWritten(prev, batch[0])
      case Err(e) => Err(e)
      case Ok(dup) =>
        match NewItemsAsWritten(prev, batch[1..])
        case Err(e) => Err(e)
        case Ok(rest) => Ok(if dup then rest else [batch[0]] + rest)
  }

  /** The updater passed to `setQuizzes` / `setCourses`, as written. */
  function MergeAsWritten(prev: seq<Entry>, batch: seq<Entry>): Result<seq<Entry>, TypeError>
  {
    match NewItemsAsWritten(prev, batch)
    case Err(e) => Err(e)
    case Ok(added) => Ok(prev + added)
  }

  predicate AllLoaded(items: seq<Entry>)
  {
    forall i :: 0 <= i < |items| ==> items[i].Loaded?
  }

  lemma {:induction false} SomeSameIdAgrees(prev: seq<Entry>, n: Entry)
    requires AllLoaded(prev) && n.Loaded?
    ensures SomeSameIdAsWritten(prev, n) == Ok(KeyIn(Key(n), prev))
  {
    if prev != [] {
      SomeSameIdAgrees(prev[1..], n);
      if prev[0].detail.id == n.detail.id {
        assert prev[0] in prev && Key(prev[0]) == Key(n);
      } else {
        if KeyIn(Key(n), prev) {
          var p :| p in prev && Key(p) == Key(n);
          assert p in prev[1..];
        }
        if KeyIn(Key(n), prev[1..]) {
          var p :| p in prev[1..] && Key(p) == Key(n);
          assert p in prev;
        }
      }
    }
  }

  lemma {:induction false} NewItemsAgree(prev: seq<Entry>, batch: seq<Entry>)
    requires AllLoaded(prev) && AllLoaded(batch)
    ensures NewItemsAsWritten(prev, batch) == Ok(Seqs.Filter(n => !KeyIn(Key(n), prev), batch))
  {
    if batch != [] {
      SomeSameIdAgrees(prev, batch[0]);
      NewItemsAgree(prev, batch[1..]);
    }
  }

  /** When every per-item request succeeded, the code as written computes
      the corrected merge. */
  lemma MergeAsWrittenAgrees(prev: seq<Entry>, batch: seq<Entry>)
    requires AllLoaded(prev) && AllLoaded(batch)
    ensures MergeAsWritten(prev, batch) == Ok(Merge(prev, batch))
  {
    NewItemsAgree(prev, batch);
  }

  /** Into the empty list the code as written never throws. */
  lemma MergeAsWrittenIntoEmpty(batch: seq<Entry>)
    ensures MergeAsWritten([], batch) == Ok(batch)
  {
    NewItemsIntoEmpty(batch);
    assert [] + batch == batch;
  }

  lemma {:induction false} NewItemsIntoEmpty(batch: seq<Entry>)
    ensures NewItemsAsWritten([], batch) == Ok(batch)
  {
    if batch != [] {
      NewItemsIntoEmpty(batch[1..]);
      assert batch == [batch[0]] + batch[1..];
    }
  }

  /** A placeholder in a batch merged into a non-empty list makes the code
      as written throw, losing the whole batch. */
  lemma {:induction false} MergeAsWrittenThrowsOnPlaceholder(prev: seq<Entry>, batch: seq<Entry>, i: nat)
    requires prev != [] && i < |batch| && batch[i].FetchFailed?
    ensures MergeAsWritten(prev, batch).Err?
  {
    if i > 0 && SomeSameIdAsWritten(prev, batch[0]).Ok? {
      MergeAsWrittenThrowsOnPlaceholder(prev, batch[1..], i - 1);
    }
  }

  /** The concrete case: one quiz already listed, one failed request in the
      next batch. */
  lemma PlaceholderCounterexample()
    ensures MergeAsWritten([Loaded(Detail(1, "React Basics Quiz"))], [FetchFailed(FetchErrorStatus)]) == Err(ReadOfUndefined)
    ensures Merge([Loaded(Detail(1, "React Basics Quiz"))], [FetchFailed(FetchErrorStatus)])
      == [Loaded(Detail(1, "React Basics Quiz")), FetchFailed(FetchErrorStatus)]
  {
    var prev := [Loaded(Detail(1, "React Basics Quiz"))];
    var batch := [FetchFailed(FetchErrorStatus)];
    assert !KeyIn(None, prev);
    assert Seqs.Filter(n => !KeyIn(Key(n), prev), batch) == batch;
  }
}
