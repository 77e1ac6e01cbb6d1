/** The read-only handlers of the questions blueprint: offset/limit paging of
    the question table and the category listing. Storage is a value holding
    each table's rows in the order the database returns them. */
module Views {

  datatype Option<T> = None | Some(value: T)

  /** A row of the question table, as its `format()` renders it. */
  datatype Question = Question(id: int, question: string, answer: string, category: int, difficulty: int)

  /** A row of the category table; `categoryType` is the label such as "Asia". */
  datatype Category = Category(id: int, categoryType: string)

  /** Both tables, each in storage order. */
  datatype Store = Store(questions: seq<Question>, categories: seq<Category>)

  /** The body of a successful `GET /questions`. */
  datatype QuestionList = QuestionList(
    questions: seq<Question>,
    categories: seq<Category>,
    totalQuestions: nat,
    currentCategory: Option<Category>)

  /** The body of a successful `GET /categories`. */
  datatype CategoryList = CategoryList(categories: seq<Category>)

  /** What a handler ends in: a body sent with `success: true`, or `abort(404)`. */
  datatype Outcome<T> = Success(body: T) | NotFound

  /** Page size used when the request has no `limit` argument. */
  const QuestionsPerPage: int := 10

  /** Page used when the request has no `page` argument. */
  const DefaultPage: int := 1

  function Min(a: int, b: int): int { if a <= b then a else b }

  function Max(a: int, b: int): int { if a <= b then b else a }

  /** A query argument, or its default when the request does not carry it. */
  function ArgOr(arg: Option<int>, default: int): int {
    match arg
    case Some(v) => v
    case None => default
  }

  /** The arguments that give a non-negative offset and limit. Other
      arguments send a negative value to the database, and only the
      database decides what happens then. */
  predicate PagingArgs(page: Option<int>, limit: Option<int>) {
    OffsetArgs(ArgOr(page, DefaultPage), ArgOr(limit, QuestionsPerPage))
  }

  /** `(page - 1) * limit` and `limit` are both non-negative: either the
      page is at least 1, or the limit is 0 and so is the offset. */
  predicate OffsetArgs(page: int, limit: int) {
    limit >= 0 && (page >= 1 || limit == 0)
  }

  /** The `OFFSET n` clause: drop the first `n` rows. */
  function Skip<T>(rows: seq<T>, n: nat): seq<T> {
    if n <= |rows| then rows[n..] else []
  }

  /** The `LIMIT n` clause: keep at most the first `n` rows. */
  function Take<T>(rows: seq<T>, n: nat): seq<T> {
    if n <= |rows| then rows[..n] else rows
  }

  /** `query.offset(offset).limit(limit).all()`: the contiguous run of rows
      that starts at `offset`, as long as `limit` allows and the table lasts. */
  function Window<T>(rows: seq<T>, offset: nat, limit: nat): (r: seq<T>)
    ensures |r| == Min(limit, Max(0, |rows| - offset))
    ensures forall i :: 0 <= i < |r| ==> r[i] == rows[offset + i]
  {
    Take(Skip(rows, offset), limit)
  }

  /** The number of rows before page `page` when pages hold `limit` rows. */
  function PageOffset(page: int, limit: int): nat
    requires OffsetArgs(page, limit)
  {
    if page >= 1 then MulNonNegative(page - 1, limit); (page - 1) * limit
    else (page - 1) * limit
  }

  lemma MulNonNegative(a: int, b: int)
    requires a >= 0 && b >= 0
    ensures a * b >= 0
  {
  }

  /** retrieve_questions: page `page` of `limit` questions, with every
      category and the count of all questions; an empty page is a 404. */
  function RetrieveQuestions(store: Store, page: Option<int>, limit: Option<int>): (r: Outcome<QuestionList>)
    requires PagingArgs(page, limit)
    ensures var p, l := ArgOr(page, DefaultPage), ArgOr(limit, QuestionsPerPage);
      r.NotFound? <==> l == 0 || PageOffset(p, l) >= |store.questions|
    ensures var p, l := ArgOr(page, DefaultPage), ArgOr(limit, QuestionsPerPage);
      r.Success? ==>
        && |r.body.questions| == Min(l, |store.questions| - PageOffset(p, l))
        && (forall i :: 0 <= i < |r.body.questions| ==>
              r.body.questions[i] == store.questions[PageOffset(p, l) + i])
    ensures r.Success? ==>
      && r.body.questions != []
      && r.body.categories == store.categories
      && r.body.totalQuestions == |store.questions|
      && r.body.currentCategory == None
  {
    var p := ArgOr(page, DefaultPage);
    var l := ArgOr(limit, QuestionsPerPage);
    var questions := Window(store.questions, PageOffset(p, l), l);
    if questions == [] then
      NotFound
    else
      Success(QuestionList(questions, store.categories, |store.questions|, None))
  }

  /** retrieve_categories: every category, or a 404 when there is none. */
  function RetrieveCategories(store: Store): (r: Outcome<CategoryList>)
    ensures r.NotFound? <==> store.categories == []
    ensures r.Success? ==> r.body.categories == store.categories
  {
    if store.categories == [] then NotFound else Success(CategoryList(store.categories))
  }

  /** The questions a listing outcome shows; a 404 shows none. */
  function Shown(r: Outcome<QuestionList>): seq<Question> {
    match r
    case Success(body) => body.questions
    case NotFound => []
  }

  /** Row `i` of a table of `n` rows is on page `page` of size `limit`. */
  predicate OnPage(i: int, n: nat, page: int, limit: nat)
    requires page >= 1
  {
    PageOffset(page, limit) <= i < PageOffset(page, limit) + limit && i < n
  }

  /** The next page starts where this one ends. */
  lemma OffsetStep(page: int, limit: nat)
    requires page >= 1
    ensures PageOffset(page + 1, limit) == PageOffset(page, limit) + limit
  {
  }

  /** Later pages never start before earlier ones. */
  lemma {:induction false} OffsetMonotone(p: int, q: int, limit: nat)
    requires 1 <= p <= q
    ensures PageOffset(p, limit) <= PageOffset(q, limit)
    decreases q - p
  {
    if p < q {
      OffsetStep(p, limit);
      OffsetMonotone(p + 1, q, limit);
    }
  }

  /** With a fixed page size, two different pages index disjoint rows. */
  lemma PagesDisjoint(n: nat, limit: nat, p1: int, p2: int, i: int)
    requires 1 <= p1 && 1 <= p2 && p1 != p2
    ensures !(OnPage(i, n, p1, limit) && OnPage(i, n, p2, limit))
  {
    if p1 < p2 {
      OffsetStep(p1, limit);
      OffsetMonotone(p1 + 1, p2, limit);
    } else {
      OffsetStep(p2, limit);
      OffsetMonotone(p2 + 1, p1, limit);
    }
  }

  /** Every id occurs on at most one row. */
  predicate UniqueIds(qs: seq<Question>) {
    forall i, j :: 0 <= i < j < |qs| ==> qs[i].id != qs[j].id
  }

  /** When ids are unique, two different pages of the same size never show
      the same question. */
  lemma DistinctPagesShareNoQuestion(store: Store, limit: int, p1: int, p2: int)
    requires UniqueIds(store.questions)
    requires 1 <= p1 && 1 <= p2 && p1 != p2 && limit >= 0
    ensures forall a, b ::
      (a in Shown(RetrieveQuestions(store, Some(p1), Some(limit))) &&
       b in Shown(RetrieveQuestions(store, Some(p2), Some(limit)))) ==> a.id != b.id
  {
    var qs := store.questions;
    var s1 := Shown(RetrieveQuestions(store, Some(p1), Some(limit)));
    var s2 := Shown(RetrieveQuestions(store, Some(p2), Some(limit)));
    var o1, o2 := PageOffset(p1, limit), PageOffset(p2, limit);
    forall a, b | a in s1 && b in s2
      ensures a.id != b.id
    {
      var i :| 0 <= i < |s1| && s1[i] == a;
      var j :| 0 <= j < |s2| && s2[j] == b;
      assert OnPage(o1 + i, |qs|, p1, limit);
      assert OnPage(o2 + j, |qs|, p2, limit);
      PagesDisjoint(|qs|, limit, p1, p2, o1 + i);
      if o1 + i < o2 + j {
        assert qs[o1 + i].id != qs[o2 + j].id;
      } else {
        assert qs[o2 + j].id != qs[o1 + i].id;
      }
    }
  }

  /** Pages 1..k of size `limit`, one after the other, a 404 counting as no rows. */
  function FirstPages(store: Store, limit: nat, k: nat): seq<Question> {
    if k == 0 then []
    else FirstPages(store, limit, k - 1) + Shown(RetrieveQuestions(store, Some(k), Some(limit)))
  }

  /** The window is the slice of the table between its clamped ends. */
  lemma WindowIsSlice<T>(rows: seq<T>, offset: nat, limit: nat)
    ensures Window(rows, offset, limit) == rows[Min(offset, |rows|)..Min(offset + limit, |rows|)]
  {
  }

  /** What page `k` shows, as a slice of the table; a 404 is the empty slice. */
  lemma ShownPage(store: Store, k: int, limit: nat)
    requires k >= 1
    ensures var o, n := PageOffset(k, limit), |store.questions|;
      Shown(RetrieveQuestions(store, Some(k), Some(limit))) == store.questions[Min(o, n)..Min(o + limit, n)]
  {
    WindowIsSlice(store.questions, PageOffset(k, limit), limit);
  }

  lemma MulSucc(k: int, limit: nat)
    requires k >= 1
    ensures (k - 1) * limit + limit == k * limit
    ensures PageOffset(k, limit) == (k - 1) * limit
  {
  }

  /** Reading one more page appends that page's slice of the table. */
  lemma FirstPagesStep(store: Store, limit: nat, k: nat)
    requires k >= 1
    ensures var o, n := PageOffset(k, limit), |store.questions|;
      FirstPages(store, limit, k) == FirstPages(store, limit, k - 1) + store.questions[Min(o, n)..Min(o + limit, n)]
  {
    ShownPage(store, k, limit);
  }

  lemma PrefixConcat<T>(s: seq<T>, lo: nat, hi: nat)
    requires lo <= hi <= |s|
    ensures s[..lo] + s[lo..hi] == s[..hi]
  {
  }

  /** Reading pages 1..k in turn shows exactly the rows before page k + 1. */
  lemma {:induction false} FirstPagesCoverOffset(store: Store, limit: nat, k: nat)
    ensures FirstPages(store, limit, k) == store.questions[..Min(PageOffset(k + 1, limit), |store.questions|)]
  {
    if k > 0 {
      FirstPagesCoverOffset(store, limit, k - 1);
      FirstPagesStep(store, limit, k);
      OffsetStep(k, limit);
      var o, n := PageOffset(k, limit), |store.questions|;
      PrefixConcat(store.questions, Min(o, n), Min(o + limit, n));
    }
  }

  /** Reading pages 1..k in turn shows exactly the first min(k*limit, N)
      questions, each once and in storage order. */
  lemma FirstPagesCoverPrefix(store: Store, limit: nat, k: nat)
    ensures FirstPages(store, limit, k) == store.questions[..Min(k * limit, |store.questions|)]
  {
    FirstPagesCoverOffset(store, limit, k);
    MulSucc(k + 1, limit);
  }

  /** Every stored question is on exactly the page its index says: with
      page size `limit`, row `i` is item `i % limit` of page `i / limit + 1`. */
  lemma EveryQuestionOnItsPage(store: Store, limit: int, i: int)
    requires limit > 0 && 0 <= i < |store.questions|
    ensures var r := RetrieveQuestions(store, Some(i / limit + 1), Some(limit));
      && r.Success?
      && i % limit < |r.body.questions|
      && r.body.questions[i % limit] == store.questions[i]
  {
    assert PageOffset(i / limit + 1, limit) == (i / limit) * limit;
    assert (i / limit) * limit + i % limit == i;
  }

  /** The count and the category list do not depend on which page is asked for. */
  lemma TotalIndependentOfPage(store: Store, p1: Option<int>, l1: Option<int>, p2: Option<int>, l2: Option<int>)
    requires PagingArgs(p1, l1) && PagingArgs(p2, l2)
    requires RetrieveQuestions(store, p1, l1).Success? && RetrieveQuestions(store, p2, l2).Success?
    ensures RetrieveQuestions(store, p1, l1).body.totalQuestions == RetrieveQuestions(store, p2, l2).body.totalQuestions
    ensures RetrieveQuestions(store, p1, l1).body.categories == RetrieveQuestions(store, p2, l2).body.categories
  {
  }

  /** With a limit of 0 every page is a 404, page 0 and below included. */
  lemma ZeroLimitNotFound(store: Store, page: int)
    ensures RetrieveQuestions(store, Some(page), Some(0)) == NotFound
  {
  }

  /** Missing arguments mean page 1 of ten questions. */
  lemma DefaultArguments(store: Store)
    ensures RetrieveQuestions(store, None, None) == RetrieveQuestions(store, Some(1), Some(10))
    ensures RetrieveQuestions(store, Some(1), None) == RetrieveQuestions(store, Some(1), Some(10))
  {
  }

  /** One category and one question: page 1 shows that question, the count
      is 1, the category list holds that category and there is no current
      category. */
  lemma SingleQuestionFirstPage(q: Question, c: Category)
    ensures RetrieveQuestions(Store([q], [c]), Some(1), None)
         == Success(QuestionList([q], [c], 1, None))
  {
    assert Window([q], 0, 10) == [q];
  }

  /** With no questions stored, page 1000 is a 404, not an empty list. */
  lemma EmptyTablePageNotFound(c: seq<Category>)
    ensures RetrieveQuestions(Store([], c), Some(1000), None) == NotFound
  {
  }

  /** With one category stored the listing returns it; with none it is a 404. */
  lemma CategoryListing(qs: seq<Question>, c: Category)
    ensures RetrieveCategories(Store(qs, [c])) == Success(CategoryList([c]))
    ensures RetrieveCategories(Store(qs, [])) == NotFound
  {
  }
}
