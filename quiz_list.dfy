/** The quiz catalogue table (src/Components/QuizList.js): each quiz carries a
    per-user status, the table is filtered by status and sorted by a chosen
    column in either direction, and each row offers a link that depends on
    whether the user is logged in. */
module QuizListView {
  import opened Wrappers
  import Text
  import Seqs

  datatype Status = Completed | Pending

  /** The status text shown in the table and compared when sorting. */
  function StatusName(s: Status): (name: string)
    ensures name == "Completed" || name == "Pending"
    ensures name == "Completed" <==> s == Completed
  {
    match s
    case Completed => "Completed"
    case Pending => "Pending"
  }

  /** A quiz as fetched from the catalogue, before its status is known. */
  datatype QuizInfo = QuizInfo(id: int, title: string, acceptance: int, difficulty: string, frequency: int)

  /** A row of the table: the fetched quiz with the user's status. */
  datatype QuizRow = QuizRow(info: QuizInfo, status: Status)

  /** The status derived from the per-user status request: `None` is a failed
      request, `Some(truthy)` the truthiness of the response body. */
  function StatusFromResponse(response: Option<bool>): (s: Status)
    ensures s == Completed <==> response == Some(true)
  {
    match response
    case Some(truthy) => if truthy then Completed else Pending
    case None => Pending
  }

  /** `{ ...quiz, status }` for every fetched quiz; a failed status request
      does not drop its quiz. */
  function AttachStatuses(quizzes: seq<QuizInfo>, responses: seq<Option<bool>>): (rows: seq<QuizRow>)
    requires |responses| == |quizzes|
    ensures |rows| == |quizzes|
    ensures forall i :: 0 <= i < |rows| ==> rows[i].info == quizzes[i]
    ensures forall i :: 0 <= i < |rows| ==> (rows[i].status == Completed <==> responses[i] == Some(true))
  {
    seq(|quizzes|, i requires 0 <= i < |quizzes| => QuizRow(quizzes[i], StatusFromResponse(responses[i])))
  }

  datatype SortKey = Title | StatusColumn | Acceptance | Difficulty | Frequency
  datatype SortOrder = Asc | Desc
  datatype StatusFilter = All | Only(status: Status)

  /** `filter === 'all' || quiz.status === filter`. */
  predicate Keep(filter: StatusFilter, q: QuizRow)
  {
    filter == All || filter == Only(q.status)
  }

  /** `a[sortKey] < b[sortKey]`: string columns compare by code units,
      numeric columns by value. */
  predicate KeyLess(a: QuizRow, b: QuizRow, key: SortKey)
  {
    match key
    case Title => Text.Less(a.info.title, b.info.title)
    case StatusColumn => Text.Less(StatusName(a.status), StatusName(b.status))
    case Acceptance => a.info.acceptance < b.info.acceptance
    case Difficulty => Text.Less(a.info.difficulty, b.info.difficulty)
    case Frequency => a.info.frequency < b.info.frequency
  }

  /** The comparator handed to `sort`. */
  function Compare(a: QuizRow, b: QuizRow, key: SortKey, order: SortOrder): (c: int)
    ensures c == -1 || c == 0 || c == 1
  {
    if KeyLess(a, b, key) then (if order == Asc then -1 else 1)
    else if KeyLess(b, a, key) then (if order == Asc then 1 else -1)
    else 0
  }

  /** `a` may come before `b` in the sorted table. */
  predicate InOrder(a: QuizRow, b: QuizRow, key: SortKey, order: SortOrder)
  {
    Compare(a, b, key, order) <= 0
  }

  lemma KeyLessAsymmetric(a: QuizRow, b: QuizRow, key: SortKey)
    ensures !(KeyLess(a, b, key) && KeyLess(b, a, key))
  {
    match key
    case Title =>
      if Text.Less(a.info.title, b.info.title) && Text.Less(b.info.title, a.info.title) {
        Text.LessTransitive(a.info.title, b.info.title, a.info.title);
        Text.LessIrreflexive(a.info.title);
      }
    case StatusColumn =>
      if Text.Less(StatusName(a.status), StatusName(b.status)) && Text.Less(StatusName(b.status), StatusName(a.status)) {
        Text.LessTransitive(StatusName(a.status), StatusName(b.status), StatusName(a.status));
        Text.LessIrreflexive(StatusName(a.status));
      }
    case Difficulty =>
      if Text.Less(a.info.difficulty, b.info.difficulty) && Text.Less(b.info.difficulty, a.info.difficulty) {
        Text.LessTransitive(a.info.difficulty, b.info.difficulty, a.info.difficulty);
        Text.LessIrreflexive(a.info.difficulty);
      }
    case Acceptance =>
    case Frequency =>
  }

  /** The comparator is antisymmetric: swapping the arguments negates it. */
  lemma CompareAntisymmetric(a: QuizRow, b: QuizRow, key: SortKey, order: SortOrder)
    ensures Compare(b, a, key, order) == -Compare(a, b, key, order)
  {
    KeyLessAsymmetric(a, b, key);
  }

  /** "Not after" on strings is transitive. */
  lemma NotLessTransitive(x: string, y: string, z: string)
    requires !Text.Less(y, x) && !Text.Less(z, y)
    ensures !Text.Less(z, x)
  {
    if Text.Less(z, x) {
      if x != y {
        Text.LessTotal(x, y);
        Text.LessTransitive(z, x, y);
      }
    }
  }

  /** "Not after" on a column is transitive. */
  lemma KeyNotLessTransitive(a: QuizRow, b: QuizRow, c: QuizRow, key: SortKey)
    requires !KeyLess(b, a, key) && !KeyLess(c, b, key)
    ensures !KeyLess(c, a, key)
  {
    match key
    case Title => NotLessTransitive(a.info.title, b.info.title, c.info.title);
    case StatusColumn => NotLessTransitive(StatusName(a.status), StatusName(b.status), StatusName(c.status));
    case Difficulty => NotLessTransitive(a.info.difficulty, b.info.difficulty, c.info.difficulty);
    case Acceptance =>
    case Frequency =>
  }

  /** The comparator induces a total preorder in either direction. */
  lemma InOrderTransitive(a: QuizRow, b: QuizRow, c: QuizRow, key: SortKey, order: SortOrder)
    requires InOrder(a, b, key, order) && InOrder(b, c, key, order)
    ensures InOrder(a, c, key, order)
  {
    KeyLessAsymmetric(a, b, key);
    KeyLessAsymmetric(b, c, key);
    KeyLessAsymmetric(a, c, key);
    if order == Asc {
      KeyNotLessTransitive(a, b, c, key);
    } else {
      KeyNotLessTransitive(c, b, a, key);
    }
  }

  lemma InOrderTotal(a: QuizRow, b: QuizRow, key: SortKey, order: SortOrder)
    ensures InOrder(a, b, key, order) || InOrder(b, a, key, order)
  {
    CompareAntisymmetric(a, b, key, order);
  }

  predicate Sorted(s: seq<QuizRow>, key: SortKey, order: SortOrder)
  {
    forall i, j :: 0 <= i < j < |s| ==> InOrder(s[i], s[j], key, order)
  }

  /** Insert `x` before the first row it does not come after (keeps a stable order). */
  function Insert(x: QuizRow, s: seq<QuizRow>, key: SortKey, order: SortOrder): (r: seq<QuizRow>)
    ensures multiset(r) == multiset(s) + multiset{x}
  {
    if s == [] then [x]
    else if Compare(x, s[0], key, order) <= 0 then [x] + s
    else
      assert s == [s[0]] + s[1..];
      [s[0]] + Insert(x, s[1..], key, order)
  }

  lemma {:induction false} InsertSorted(x: QuizRow, s: seq<QuizRow>, key: SortKey, order: SortOrder)
    requires Sorted(s, key, order)
    ensures Sorted(Insert(x, s, key, order), key, order)
  {
    var r := Insert(x, s, key, order);
    if s == [] {
    } else if Compare(x, s[0], key, order) <= 0 {
      forall j | 1 <= j < |r| ensures InOrder(r[0], r[j], key, order) {
        if j > 1 { InOrderTransitive(x, s[0], s[j - 1], key, order); }
      }
    } else {
      InsertSorted(x, s[1..], key, order);
      InOrderTotal(x, s[0], key, order);
      var tail := Insert(x, s[1..], key, order);
      forall j | 0 <= j < |tail| ensures InOrder(s[0], tail[j], key, order) {
        assert tail[j] in multiset(tail);
        assert tail[j] == x || tail[j] in multiset(s[1..]);
        if tail[j] != x {
          assert tail[j] in s[1..];
        }
      }
    }
  }

  /** `sort` with the column comparator: a stable insertion sort. */
  function SortRows(s: seq<QuizRow>, key: SortKey, order: SortOrder): (r: seq<QuizRow>)
    ensures multiset(r) == multiset(s)
  {
    if s == [] then []
    else
      assert s == [s[0]] + s[1..];
      Insert(s[0], SortRows(s[1..], key, order), key, order)
  }

  lemma {:induction false} SortRowsSorted(s: seq<QuizRow>, key: SortKey, order: SortOrder)
    ensures Sorted(SortRows(s, key, order), key, order)
  {
    if s != [] {
      SortRowsSorted(s[1..], key, order);
      InsertSorted(s[0], SortRows(s[1..], key, order), key, order);
    }
  }

  /** Neither row sorts before the other on the column. */
  predicate Equivalent(a: QuizRow, b: QuizRow, key: SortKey)
  {
    !KeyLess(a, b, key) && !KeyLess(b, a, key)
  }

  lemma EquivalentTransitive(a: QuizRow, b: QuizRow, c: QuizRow, key: SortKey)
    requires Equivalent(a, b, key) && Equivalent(c, b, key)
    ensures Equivalent(a, c, key)
  {
    KeyNotLessTransitive(c, b, a, key);
    KeyNotLessTransitive(a, b, c, key);
  }

  /** Inserting a row places it before every row equivalent to it. */
  lemma {:induction false} InsertStable(x: QuizRow, s: seq<QuizRow>, y: QuizRow, key: SortKey, order: SortOrder)
    ensures Seqs.Filter(e => Equivalent(e, y, key), Insert(x, s, key, order))
         == (if Equivalent(x, y, key) then [x] else []) + Seqs.Filter(e => Equivalent(e, y, key), s)
  {
    var eq := e => Equivalent(e, y, key);
    var r := Insert(x, s, key, order);
    if s == [] {
      Seqs.FilterCons(eq, x, []);
      assert r == [x] + [];
    } else if Compare(x, s[0], key, order) <= 0 {
      assert r == [x] + s;
      Seqs.FilterCons(eq, x, s);
    } else {
      InsertStable(x, s[1..], y, key, order);
      assert r == [s[0]] + Insert(x, s[1..], key, order);
      assert s == [s[0]] + s[1..];
      Seqs.FilterCons(eq, s[0], Insert(x, s[1..], key, order));
      Seqs.FilterCons(eq, s[0], s[1..]);
      if Equivalent(x, y, key) && Equivalent(s[0], y, key) {
        EquivalentTransitive(x, y, s[0], key);
        assert false;
      }
    }
  }

  /** The sort is stable: rows that tie on the column keep their relative
      order, as JavaScript's `Array.prototype.sort` guarantees. */
  lemma {:induction false} SortRowsStable(s: seq<QuizRow>, y: QuizRow, key: SortKey, order: SortOrder)
    ensures Seqs.Filter(e => Equivalent(e, y, key), SortRows(s, key, order))
         == Seqs.Filter(e => Equivalent(e, y, key), s)
  {
    if s != [] {
      SortRowsStable(s[1..], y, key, order);
      InsertStable(s[0], SortRows(s[1..], key, order), y, key, order);
    }
  }

  /** `sortedQuizzes`: the kept rows of a copy of `quizzes`, sorted. */
  function SortedQuizzes(quizzes: seq<QuizRow>, filter: StatusFilter, key: SortKey, order: SortOrder): seq<QuizRow>
  {
    SortRows(Seqs.Filter(q => Keep(filter, q), quizzes), key, order)
  }

  /** The table holds exactly the rows that pass the filter, each as often as
      in `quizzes`, ordered by the column in the chosen direction. */
  lemma SortedQuizzesSpec(quizzes: seq<QuizRow>, filter: StatusFilter, key: SortKey, order: SortOrder)
    ensures var r := SortedQuizzes(quizzes, filter, key, order);
      && Sorted(r, key, order)
      && multiset(r) == multiset(Seqs.Filter(q => Keep(filter, q), quizzes))
      && (forall q :: q in r <==> q in quizzes && Keep(filter, q))
  {
    var kept := Seqs.Filter(q => Keep(filter, q), quizzes);
    SortRowsSorted(kept, key, order);
    forall q ensures q in SortedQuizzes(quizzes, filter, key, order) <==> q in quizzes && Keep(filter, q) {
      Seqs.FilterMembership(q => Keep(filter, q), quizzes, q);
      assert q in SortedQuizzes(quizzes, filter, key, order) <==> q in multiset(kept);
    }
  }

  /** `handleSort`: the same column flips the direction, another column is
      selected in ascending order. */
  function NextSort(sortKey: SortKey, sortOrder: SortOrder, clicked: SortKey): (next: (SortKey, SortOrder))
    ensures clicked == sortKey ==> next.0 == sortKey && next.1 != sortOrder
    ensures clicked != sortKey ==> next == (clicked, Asc)
  {
    if clicked == sortKey then (sortKey, if sortOrder == Asc then Desc else Asc)
    else (clicked, Asc)
  }

  /** Clicking the active column twice restores the order. */
  lemma SortTwiceRestores(sortKey: SortKey, sortOrder: SortOrder)
    ensures var once := NextSort(sortKey, sortOrder, sortKey);
      NextSort(once.0, once.1, sortKey) == (sortKey, sortOrder)
  {
  }

  datatype Chevron = Up | Down

  /** `renderSortIcon`: only the active column shows an icon, up for
      ascending, down for descending. */
  function SortIcon(sortKey: SortKey, sortOrder: SortOrder, column: SortKey): (icon: Option<Chevron>)
    ensures icon.Some? <==> column == sortKey
    ensures icon == Some(Up) <==> column == sortKey && sortOrder == Asc
  {
    if sortKey == column then Some(if sortOrder == Asc then Up else Down) else None
  }

  predicate IsCompleted(q: QuizRow) { q.status == Completed }

  /** `quizzes.filter(q => q.status === 'Completed').length`. */
  function CompletedCount(quizzes: seq<QuizRow>): (n: nat)
    ensures n <= |quizzes|
  {
    |Seqs.Filter(IsCompleted, quizzes)|
  }

  /** The completed count is the number of rows the "Completed" filter shows. */
  lemma CompletedCountMatchesFilter(quizzes: seq<QuizRow>, key: SortKey, order: SortOrder)
    ensures CompletedCount(quizzes) == |SortedQuizzes(quizzes, Only(Completed), key, order)|
  {
    var b := Seqs.Filter(q => Keep(Only(Completed), q), quizzes);
    Seqs.FilterSameTest(IsCompleted, q => Keep(Only(Completed), q), quizzes);
    assert |multiset(SortedQuizzes(quizzes, Only(Completed), key, order))| == |multiset(b)|;
  }

  datatype ActionLink = LoginToTake | Review(quizId: int) | TakeQuiz(quizId: int)

  /** The Action column: a login link without a token, otherwise a link to
      the quiz reading "Review" or "Take Quiz". */
  function Action(hasToken: bool, q: QuizRow): (link: ActionLink)
    ensures !hasToken <==> link == LoginToTake
    ensures link.Review? <==> hasToken && q.status.Completed?
    ensures link.TakeQuiz? <==> hasToken && q.status.Pending?
    ensures !link.LoginToTake? ==> link.quizId == q.info.id
  {
    if !hasToken then LoginToTake
    else if q.status == Completed then Review(q.info.id)
    else TakeQuiz(q.info.id)
  }

  /** The component's state: the fetched rows and the table controls. */
  class Table {
    var quizzes: seq<QuizRow>
    var sortKey: SortKey
    var sortOrder: SortOrder
    var filter: StatusFilter

    constructor ()
      ensures quizzes == [] && sortKey == Title && sortOrder == Asc && filter == All
    {
      quizzes := [];
      sortKey := Title;
      sortOrder := Asc;
      filter := All;
    }

    /** The fetch completed: store the rows with their statuses. */
    method Loaded(fetched: seq<QuizInfo>, responses: seq<Option<bool>>)
      requires |responses| == |fetched|
      modifies this`quizzes
      ensures quizzes == AttachStatuses(fetched, responses)
    {
      quizzes := AttachStatuses(fetched, responses);
    }

    method HandleSort(clicked: SortKey)
      modifies this`sortKey, this`sortOrder
      ensures (sortKey, sortOrder) == NextSort(old(sortKey), old(sortOrder), clicked)
    {
      if clicked == sortKey {
        sortOrder := if sortOrder == Asc then Desc else Asc;
      } else {
        sortKey := clicked;
        sortOrder := Asc;
      }
    }

    method SetFilter(f: StatusFilter)
      modifies this`filter
      ensures filter == f
    {
      filter := f;
    }
  }
}
