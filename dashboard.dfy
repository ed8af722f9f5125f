/** The dashboard (src/Components/Dashboard.js): up to four course cards with
    shortened text and up to four pending quizzes, each drawn in a random
    order. The random order is an input here: any rearrangement of the list. */
module DashboardView {
  import Text
  import Seqs
  import CourseCatalog

  type Course = CourseCatalog.Course

  /** Cards and quizzes the dashboard shows at most. */
  const ShownLimit: nat := 4

  /** The dashboard's shortened card text: titles over 20 characters keep 20,
      descriptions over 27 keep 27, and both gain "...". */
  function CardText(c: Course): (r: Course)
    ensures |r.title| <= 23 && |r.description| <= 30
    ensures |c.title| <= 20 ==> r.title == c.title
    ensures |c.title| > 20 ==> r.title == c.title[..20] + "..."
    ensures |c.description| <= 27 ==> r.description == c.description
    ensures |c.description| > 27 ==> r.description == c.description[..27] + "..."
    ensures r.id == c.id && r.category == c.category && r.image == c.image && r.price == c.price
  {
    c.(title := Text.Truncate(c.title, 20, "..."), description := Text.Truncate(c.description, 27, "..."))
  }

  function CardsText(raw: seq<Course>): (r: seq<Course>)
    ensures |r| == |raw|
    ensures forall i :: 0 <= i < |r| ==> r[i] == CardText(raw[i])
  {
    seq(|raw|, i requires 0 <= i < |raw| => CardText(raw[i]))
  }

  /** The course cards: the first four of `shuffled`, a rearrangement of the
      shortened courses. */
  function ShownCourses(raw: seq<Course>, shuffled: seq<Course>): (r: seq<Course>)
    requires multiset(shuffled) == multiset(CardsText(raw))
    ensures |r| == Seqs.Min(ShownLimit, |raw|)
    ensures multiset(r) <= multiset(CardsText(raw))
    ensures forall c :: c in r ==> exists i :: 0 <= i < |raw| && c == CardText(raw[i])
  {
    var r := Seqs.Slice(shuffled, 0, ShownLimit);
    assert shuffled == r + shuffled[|r|..];
    assert |shuffled| == |multiset(shuffled)| == |raw|;
    forall c | c in r ensures exists i :: 0 <= i < |raw| && c == CardText(raw[i]) {
      assert c in multiset(CardsText(raw));
      var i :| 0 <= i < |raw| && CardsText(raw)[i] == c;
    }
    r
  }

  /** A quiz as listed by the catalogue endpoint, with its status text. */
  datatype DashQuiz = DashQuiz(id: int, title: string, status: string)

  predicate IsPending(q: DashQuiz) { q.status == "Pending" }

  /** `quizResponse.data.filter(quiz => quiz.status === 'Pending')`. */
  function PendingQuizzes(raw: seq<DashQuiz>): seq<DashQuiz>
  {
    Seqs.Filter(IsPending, raw)
  }

  /** The quiz list: the first four of `shuffled`, a rearrangement of the
      pending quizzes; every quiz shown is pending and was fetched. */
  function ShownQuizzes(raw: seq<DashQuiz>, shuffled: seq<DashQuiz>): (r: seq<DashQuiz>)
    requires multiset(shuffled) == multiset(PendingQuizzes(raw))
    ensures |r| == Seqs.Min(ShownLimit, |PendingQuizzes(raw)|)
    ensures multiset(r) <= multiset(raw)
    ensures forall q :: q in r ==> IsPending(q) && q in raw
  {
    var pending := PendingQuizzes(raw);
    var r := Seqs.Slice(shuffled, 0, ShownLimit);
    assert shuffled == r + shuffled[|r|..];
    assert |shuffled| == |multiset(shuffled)| == |pending|;
    Seqs.FilterMultiset(IsPending, raw);
    forall q | q in r ensures IsPending(q) && q in raw {
      assert q in multiset(pending);
      Seqs.FilterMembership(IsPending, raw, q);
    }
    r
  }

  datatype QuizLink = LoginToTakeQuiz | TakeQuiz(quizId: int, enabled: bool)

  /** The link beside a quiz: without a token, to the login page; with one,
      "Take Quiz", active only for a pending quiz. */
  function Link(hasToken: bool, q: DashQuiz): (link: QuizLink)
    ensures link == LoginToTakeQuiz <==> !hasToken
    ensures link.TakeQuiz? ==> link.quizId == q.id
    ensures link.TakeQuiz? && link.enabled <==> hasToken && IsPending(q)
  {
    if hasToken then TakeQuiz(q.id, IsPending(q)) else LoginToTakeQuiz
  }
}
