/** The quiz catalogue page: a case-insensitive search on the quiz title. */
module QuizCatalog {
  import Text
  import Lists

  /** A catalogue entry; the catalogue itself is a parameter. */
  datatype Quiz = Quiz(id: int, title: string, difficulty: string, time: string)

  function Matches(query: string): Quiz -> bool {
    (q: Quiz) => Text.ContainsIgnoringCase(q.title, query)
  }

  /** `filteredQuizzes`: the quizzes whose title contains the query, ignoring case, in order. */
  function FilteredQuizzes(quizzes: seq<Quiz>, query: string): (r: seq<Quiz>)
    ensures Lists.IsSubseq(r, quizzes)
    ensures forall k :: 0 <= k < |quizzes| ==> (quizzes[k] in r <==> Text.ContainsIgnoringCase(quizzes[k].title, query))
  {
    Lists.Filter(quizzes, Matches(query))
  }

  /** Difficulty and time play no part in the match. */
  lemma OnlyTitleMatters(q: Quiz, query: string, difficulty: string, time: string)
    ensures Matches(query)(q.(difficulty := difficulty, time := time)) == Matches(query)(q)
  {
  }

  /** The empty query keeps every quiz. */
  lemma EmptyQueryKeepsAll(quizzes: seq<Quiz>)
    ensures FilteredQuizzes(quizzes, "") == quizzes
  {
    forall k | 0 <= k < |quizzes| ensures Matches("")(quizzes[k]) {
      Text.ContainsIgnoringCaseProperties(quizzes[k].title, "");
    }
    Lists.FilterAll(quizzes, Matches(""));
  }

  /** Queries with the same lower-case form select the same quizzes. */
  lemma CaseInsensitive(quizzes: seq<Quiz>, q1: string, q2: string)
    requires Text.Lower(q1) == Text.Lower(q2)
    ensures FilteredQuizzes(quizzes, q1) == FilteredQuizzes(quizzes, q2)
  {
    Lists.FilterCongruent(quizzes, Matches(q1), Matches(q2));
  }

  /** In particular an upper-cased query selects the same quizzes. */
  lemma UpperCaseQuery(quizzes: seq<Quiz>, q: string)
    ensures FilteredQuizzes(quizzes, Text.Upper(q)) == FilteredQuizzes(quizzes, q)
  {
    Text.LowerOfUpper(q);
    CaseInsensitive(quizzes, Text.Upper(q), q);
  }
}
