# Trivia API: payload validation and question paging

A model of the decision logic of the trivia API backend's questions
blueprint:

- the two request-body validators, `isValidQuestion` and `isValidQuizRequest`,
  which walk a fixed list of field names and clear a flag when a field fails
  (module `Helpers`, file `helpers.dfy`; bodies are decoded JSON objects,
  module `Payload`, file `payload.dfy`);
- the `GET /questions` handler, which turns `page` and `limit` into an
  `OFFSET`/`LIMIT` query, answers 404 for an empty page, and otherwise returns
  the page, every category, the count of all questions and no current
  category; and the `GET /categories` handler, which returns every category
  or 404 (module `Views`, file `views.dfy`).

The validators loop, so they are methods with loop invariants, each proved
equal to a declarative predicate (`ValidQuestion`, `ValidQuizRequest`). The
handlers only compute, so they are functions returning
`Outcome = Success(body) | NotFound`. The database is a value, `Store`, that
holds each table's rows in the order the database returns them. An `OFFSET n
LIMIT m` query is the function `Window`.

A stricter reading, in which a question body must hold exactly these four
fields, is not what `isValidQuestion` does. It never looks at other keys, so
a body with extra keys is accepted. `ExtraKeyIgnored` and
`QuestionOnlyInspectsFields` state this. Likewise, `''` makes a field invalid
whatever the field is, `category` and `difficulty` included. Only the JSON
string `""` compares equal to `''`: `0`, `false`, `null` and `[]` do not.

## Model

| member | source | states |
|---|---|---|
| Helpers.IsValidQuestion | backend/flaskr/questions/helpers.py:1-16 | the flag loop over the four expected fields returns true exactly when `question`, `answer`, `category` and `difficulty` are all present and none of them is the empty string |
| Helpers.AllFilledIsValidQuestion | backend/flaskr/questions/helpers.py:6-16 | every field of the checking list being present and not `''` is the same as the field-by-field reading of a valid question body |
| Helpers.QuestionCheckOrderIrrelevant | backend/flaskr/questions/helpers.py:12-16 | the all-filled condition the loop establishes is order-independent: it holds for any permutation of the four fields exactly when it holds for the list as written |
| Helpers.MissingFieldRejected | backend/flaskr/questions/helpers.py:14-15 | a body missing any one of the four fields is rejected |
| Helpers.EmptyFieldRejected | backend/flaskr/questions/helpers.py:14 | a body in which any one of the four fields, `category` and `difficulty` included, is `''` is rejected |
| Helpers.QuestionOnlyInspectsFields | backend/flaskr/questions/helpers.py:13-16 | two bodies that agree on the four fields get the same verdict, whatever other keys they carry |
| Helpers.ExtraKeyIgnored | backend/flaskr/questions/helpers.py:13-16 | adding or overwriting a key that is not one of the four never changes the verdict |
| Helpers.IsValidQuizRequest | backend/flaskr/questions/helpers.py:19-31 | the flag loop returns true exactly when both `previous_questions` and `quiz_category` are keys of the body |
| Helpers.QuizOnlyInspectsKeys | backend/flaskr/questions/helpers.py:28-30 | the quiz verdict depends only on whether the two keys are present, never on their values |
| Helpers.QuizValuesNotInspected | backend/flaskr/questions/helpers.py:23-31 | bodies whose two fields are `''`, or whose `quiz_category` has no `id`, still validate |
| Views.Window | backend/flaskr/questions/views.py:21 | `offset(o).limit(l)` yields `min(l, max(0, N - o))` rows, and its row `i` is stored row `o + i` |
| Views.WindowIsSlice | backend/flaskr/questions/views.py:21 | the window is the contiguous slice of storage between `min(o, N)` and `min(o + l, N)` |
| Views.RetrieveQuestions | backend/flaskr/questions/views.py:16-35 | with `offset = (page-1)*limit`: the result is 404 exactly when the limit is 0 or the offset reaches past the last question; otherwise the page is the contiguous non-empty run starting at the offset, of length `min(limit, N - offset)`, with all categories, `total_questions = N` and no current category |
| Views.ZeroLimitNotFound | backend/flaskr/questions/views.py:19-23 | with `limit = 0` every page, page 0 and below included, is a 404 |
| Views.DefaultArguments | backend/flaskr/questions/views.py:17-18 | a missing `page` means page 1, and a missing `limit` means `QUESTIONS_PER_PAGE = 10` |
| Views.OffsetStep | backend/flaskr/questions/views.py:19 | page `p + 1` starts `limit` rows after page `p` |
| Views.OffsetMonotone | backend/flaskr/questions/views.py:19 | a later page never starts before an earlier one |
| Views.PagesDisjoint | backend/flaskr/questions/views.py:19-21 | with a fixed limit, no stored row lies on two different pages |
| Views.DistinctPagesShareNoQuestion | backend/flaskr/questions/views.py:19-23 | when question ids are unique, two different pages of the same size never show a question with the same id |
| Views.ShownPage | backend/flaskr/questions/views.py:19-23 | what page `k` shows (nothing when it is a 404) is the storage slice between its clamped ends |
| Views.FirstPagesStep | backend/flaskr/questions/views.py:19-23 | reading page `k` after pages 1..k-1 appends exactly that page's clamped slice of storage |
| Views.FirstPagesCoverOffset | backend/flaskr/questions/views.py:19-23 | pages 1..k, read in turn, show exactly the stored questions before the offset of page `k + 1` |
| Views.FirstPagesCoverPrefix | backend/flaskr/questions/views.py:19-23 | reading pages 1..k in turn shows exactly the first `min(k*limit, N)` stored questions, in storage order, each once |
| Views.EveryQuestionOnItsPage | backend/flaskr/questions/views.py:19-23 | for a positive limit, stored question `i` is item `i % limit` of page `i / limit + 1`, and that page is a success |
| Views.TotalIndependentOfPage | backend/flaskr/questions/views.py:24-33 | any two successful listings report the same `total_questions` and the same category list, whatever page and limit were asked for |
| Views.RetrieveCategories | backend/flaskr/questions/views.py:42-52 | the result is 404 exactly when there is no category; otherwise it is every category in storage order |
| Views.SingleQuestionFirstPage | backend/test_flaskr.py:53-63 | with one category and one question stored, page 1 is a success with that question, that category, a total of 1 and no current category |
| Views.EmptyTablePageNotFound | backend/test_flaskr.py:65-77 | with no question stored, page 1000 is a 404 and not an empty success |
| Views.CategoryListing | backend/test_flaskr.py:79-100 | with one category stored the listing returns it; with none it is a 404 |

## Left out

- Neither validator can modify the body: the body is an immutable map value and the methods have no `modifies` clause. No separate member states this.
- Request parsing is not modelled. `request.get_json()`, and `request.args.get(..., type=int)` falling back to the default on a malformed value, are library behaviour. `page` and `limit` arrive as already-parsed optional integers.
- Views.RetrieveQuestions: requires `limit >= 0`, and `page >= 1` unless `limit = 0`. Other arguments send a negative offset or limit to the database, and the outcome is decided there, not by this code.
- Integer width is not modelled. Python integers are unbounded, and so are Dafny's. The database's 64-bit bound on `OFFSET` is not modelled.
- JSON numbers are integers. Floating-point values are not modelled, and neither is a body that is not a JSON object.
- `Question.format()` and `Category.format()` are taken to render every column of the row. The ORM models file is not part of this model.
- Storage is taken to return rows in one fixed order. The query has no `ORDER BY`, so the code relies on the database's natural order. The paging lemmas hold for whatever order that is, provided it is stable.
- The `try`/`except` in both handlers only re-raises. Database failures, and the 500 response they lead to, are not modelled.
- The application factory is not modelled. This covers CORS, environment loading, blueprint registration and the JSON error envelope (`success`, `error`, `message`). A 404 is the `NotFound` outcome. The envelope's 500 handler is defined after `return app`, so it is never registered.
- The quiz, search, create, delete and category-scoped listing endpoints are not modelled. None of them is defined in the handlers file this model covers. Quiz selection is random as well.
- The front-end's page count, `ceil(total / 10)`, is user-interface code and is not modelled.
