/**
 The live-quiz play screen: the once-a-second synchronisation that maps the
 time elapsed since the scheduled start to the active question (or to
 "finished"), the edge-triggered reset of the answer state, answer selection
 with score accumulation, and the leaderboard merge of broadcast scores.

 Every client derives the active question from the same stored start time and
 question timers, so clients converge without a shared tick. Times are
 integer milliseconds; `/` by a positive divisor is floor division, as
 `Math.floor` is.
 */
module QuizPlay {
  import opened Wrappers
  import Lists
  import Sorting

  /** Seconds a question lasts when its timer is missing or zero. */
  const DefaultTimerSeconds: int := 15
  /** Minutes the whole quiz lasts when its duration is missing or zero. */
  const DefaultDurationMinutes: int := 15

  datatype Question = Question(id: int, timerSeconds: Option<int>)

  /** A question's timer in seconds; a missing or zero timer means the 15 s default. */
  function Duration(q: Question): (d: int)
    ensures q.timerSeconds.None? || q.timerSeconds.value == 0 ==> d == DefaultTimerSeconds
    ensures q.timerSeconds.Some? && q.timerSeconds.value != 0 ==> d == q.timerSeconds.value
  {
    if q.timerSeconds.Some? && q.timerSeconds.value != 0 then q.timerSeconds.value else DefaultTimerSeconds
  }

  /** The question timers in order. */
  function Durations(qs: seq<Question>): (ds: seq<int>)
    ensures |ds| == |qs| && forall k :: 0 <= k < |qs| ==> ds[k] == Duration(qs[k])
  {
    seq(|qs|, k requires 0 <= k < |qs| => Duration(qs[k]))
  }

  /** Every question timer is positive (a missing timer counts as 15). */
  ghost predicate PositiveTimers(ds: seq<int>) {
    forall k :: 0 <= k < |ds| ==> ds[k] > 0
  }

  /** The start of question `i`'s window: the sum of the timers before it. */
  function Cum(ds: seq<int>, i: nat): int
    requires i <= |ds|
  {
    if i == 0 then 0 else Cum(ds, i - 1) + ds[i - 1]
  }

  /** With positive timers, windows start later the later the question. */
  lemma {:induction false} CumMonotone(ds: seq<int>, i: nat, j: nat)
    requires PositiveTimers(ds) && i <= j <= |ds|
    ensures Cum(ds, i) + (j - i) <= Cum(ds, j)
    decreases j
  {
    if i < j {
      CumMonotone(ds, i, j - 1);
    }
  }

  /** Elapsed second `e` falls in question `i`'s window. */
  ghost predicate InWindow(ds: seq<int>, e: int, i: int) {
    0 <= i < |ds| && Cum(ds, i) <= e < Cum(ds, i) + ds[i]
  }

  /** The first question at or after `i` whose window holds `e`, or -1. */
  function FindWindowFrom(ds: seq<int>, e: int, i: nat): (r: int)
    requires i <= |ds|
    ensures r == -1 || i <= r < |ds|
    ensures r >= 0 ==> InWindow(ds, e, r) && forall j :: i <= j < r ==> !InWindow(ds, e, j)
    ensures r == -1 ==> forall j :: i <= j < |ds| ==> !InWindow(ds, e, j)
    decreases |ds| - i
  {
    if i == |ds| then -1
    else if Cum(ds, i) <= e < Cum(ds, i) + ds[i] then i
    else FindWindowFrom(ds, e, i + 1)
  }

  /** The first question whose window holds `e`, or -1. */
  function FindWindow(ds: seq<int>, e: int): (r: int)
    ensures -1 <= r < |ds|
    ensures r >= 0 ==> InWindow(ds, e, r) && forall j :: 0 <= j < r ==> !InWindow(ds, e, j)
    ensures r == -1 <==> forall j :: 0 <= j < |ds| ==> !InWindow(ds, e, j)
  {
    FindWindowFrom(ds, e, 0)
  }

  /** Whole seconds since the start, rounded down (also before the start). */
  function ElapsedSeconds(nowMs: int, startMs: int): (e: int)
    ensures e * 1000 <= nowMs - startMs < e * 1000 + 1000
  {
    (nowMs - startMs) / 1000
  }

  /** The whole quiz's length in seconds; a missing or zero duration means 15 minutes. */
  function TotalSeconds(durationMinutes: Option<int>): (t: int)
    ensures durationMinutes.None? || durationMinutes.value == 0 ==> t == DefaultDurationMinutes * 60
    ensures durationMinutes.Some? && durationMinutes.value != 0 ==> t == durationMinutes.value * 60
  {
    (if durationMinutes.Some? && durationMinutes.value != 0 then durationMinutes.value else DefaultDurationMinutes) * 60
  }

  /** The seconds left in the whole quiz, never below zero. */
  function RemainingQuizTime(total: int, e: int): (r: nat)
    ensures r == 0 <==> e >= total
    ensures r > 0 ==> r == total - e
  {
    if total - e > 0 then total - e else 0
  }

  /** What one synchronisation tick resolves to. */
  datatype Phase =
    | Finished                            // index becomes questions.length
    | Active(index: nat, qRemaining: int) // question `index`, with seconds left in it
    | NoWindow                            // no question matched; the index is left alone

  /** The resolver: the phase at elapsed second `e`. */
  function Resolve(total: int, ds: seq<int>, e: int): (p: Phase)
    ensures e >= total ==> p == Finished
    ensures p.Active? ==> e < total && InWindow(ds, e, p.index) && p.qRemaining == Cum(ds, p.index) + ds[p.index] - e
    ensures p.Active? ==> 1 <= p.qRemaining <= ds[p.index]
    ensures p.Active? ==> forall j :: 0 <= j < p.index ==> !InWindow(ds, e, j)
    ensures p.Finished? ==> e >= total || (|ds| > 0 && e >= Cum(ds, |ds|))
    ensures p.NoWindow? ==> e < total && (|ds| == 0 || e < Cum(ds, |ds|)) && forall j :: 0 <= j < |ds| ==> !InWindow(ds, e, j)
  {
    if RemainingQuizTime(total, e) <= 0 then Finished
    else
      var i := FindWindow(ds, e);
      if i >= 0 then Active(i, Cum(ds, i) + ds[i] - e)
      else if e >= Cum(ds, |ds|) && |ds| > 0 then Finished
      else NoWindow
  }

  /**
   While quiz time remains, an elapsed second inside question `i`'s window
   resolves to question `i` with `cum(i) + d_i - e` seconds left (between 1
   and `d_i`): windows of positive timers do not overlap.
   */
  lemma WindowResolvesToQuestion(total: int, ds: seq<int>, e: int, i: nat)
    requires PositiveTimers(ds)
    requires i < |ds| && Cum(ds, i) <= e < Cum(ds, i) + ds[i]
    requires e < total
    ensures Resolve(total, ds, e) == Active(i, Cum(ds, i) + ds[i] - e)
    ensures 1 <= Cum(ds, i) + ds[i] - e <= ds[i]
  {
    assert InWindow(ds, e, i);
    var r := FindWindow(ds, e);
    WindowsDisjoint(ds, e, r, i);
    assert Resolve(total, ds, e) == Active(r, Cum(ds, r) + ds[r] - e);
  }

  /** With positive timers no second lies in two windows. */
  lemma WindowsDisjoint(ds: seq<int>, e: int, a: int, b: int)
    requires PositiveTimers(ds)
    requires InWindow(ds, e, a) && InWindow(ds, e, b)
    ensures a == b
  {
    if a < b {
      CumMonotone(ds, a + 1, b);
    } else if b < a {
      CumMonotone(ds, b + 1, a);
    }
  }

  /** With positive timers every second from 0 up to the total of the timers lies in some window. */
  lemma {:induction false} Covered(ds: seq<int>, e: int, k: nat)
    requires PositiveTimers(ds) && k <= |ds|
    requires 0 <= e < Cum(ds, k)
    ensures exists j :: 0 <= j < k && InWindow(ds, e, j)
  {
    if e >= Cum(ds, k - 1) {
      assert InWindow(ds, e, k - 1);
    } else {
      Covered(ds, e, k - 1);
    }
  }

  /** With positive timers, no question matches only before the start. */
  lemma NoWindowOnlyBeforeStart(total: int, ds: seq<int>, e: int)
    requires PositiveTimers(ds) && |ds| > 0
    requires Resolve(total, ds, e) == NoWindow
    ensures e < 0
  {
    if e >= 0 {
      Covered(ds, e, |ds|);
    }
  }

  /**
   Once every question's window has passed while quiz time remains, a
   non-empty quiz resolves to finished.
   */
  lemma PastLastQuestionFinishes(total: int, ds: seq<int>, e: int)
    requires PositiveTimers(ds) && |ds| > 0
    requires e >= Cum(ds, |ds|)
    ensures Resolve(total, ds, e) == Finished
  {
    forall j | 0 <= j < |ds| ensures !InWindow(ds, e, j) {
      CumMonotone(ds, j + 1, |ds|);
    }
  }

  /** Before the start no question matches, so the current index is kept. */
  lemma BeforeStartKeepsIndex(total: int, ds: seq<int>, e: int)
    requires PositiveTimers(ds) && |ds| > 0
    requires e < 0 && e < total
    ensures Resolve(total, ds, e) == NoWindow
  {
    forall j | 0 <= j < |ds| ensures !InWindow(ds, e, j) {
      CumMonotone(ds, 0, j);
    }
    CumMonotone(ds, 0, |ds|);
  }

  /** The index a phase shows: before the start the initial -1. */
  function PhaseRank(p: Phase, n: nat): int {
    match p
    case Finished => n
    case Active(i, _) => i
    case NoWindow => -1
  }

  /**
   Question progression is monotonic: with positive timers a later tick never
   resolves to an earlier question.
   */
  lemma ProgressionIsMonotonic(total: int, ds: seq<int>, e1: int, e2: int)
    requires PositiveTimers(ds) && |ds| > 0
    requires e1 <= e2
    ensures PhaseRank(Resolve(total, ds, e1), |ds|) <= PhaseRank(Resolve(total, ds, e2), |ds|)
  {
    var p1, p2 := Resolve(total, ds, e1), Resolve(total, ds, e2);
    if p1.Active? && p2.Active? && p2.index < p1.index {
      CumMonotone(ds, p2.index + 1, p1.index);
      assert false;
    }
    if p1.Finished? && !p2.Finished? {
      if e1 < total {
        assert e1 >= Cum(ds, |ds|);
        PastLastQuestionFinishes(total, ds, e2);
      }
    }
    if p1.Active? && p2.NoWindow? {
      NoWindowOnlyBeforeStart(total, ds, e2);
      CumMonotone(ds, 0, p1.index);
    }
  }

  /**
   A three-question quiz with timers of 15, 20 and 10 seconds and a 300-second
   duration. The quiz finishes as soon as the last question's window closes
   (second 45), long before the whole-quiz cutoff.
   */
  lemma ThreeQuestionScenario()
    ensures Resolve(300, [15, 20, 10], 10) == Active(0, 5)
    ensures Resolve(300, [15, 20, 10], 30) == Active(1, 5)
    ensures Resolve(300, [15, 20, 10], 50) == Finished
    ensures Resolve(300, [15, 20, 10], -5) == NoWindow
  {
    var ds := [15, 20, 10];
    assert Cum(ds, 1) == 15 && Cum(ds, 2) == 35 && Cum(ds, 3) == 45;
    WindowResolvesToQuestion(300, ds, 10, 0);
    WindowResolvesToQuestion(300, ds, 30, 1);
    PastLastQuestionFinishes(300, ds, 50);
    BeforeStartKeepsIndex(300, ds, -5);
  }

  /**
   The question-search loop of one tick: walks the questions accumulating
   their timers and stops at the first window holding `e`.
   */
  method LocateQuestion(questions: seq<Question>, e: int) returns (foundIndex: int, cumulative: int, qRemaining: int)
    ensures foundIndex == FindWindow(Durations(questions), e)
    ensures foundIndex >= 0 ==> qRemaining == Cum(Durations(questions), foundIndex) + Duration(questions[foundIndex]) - e
    ensures foundIndex == -1 ==> cumulative == Cum(Durations(questions), |questions|)
  {
    ghost var ds := Durations(questions);
    cumulative := 0;
    foundIndex := -1;
    qRemaining := 0;
    var i := 0;
    while i < |questions|
      invariant 0 <= i <= |questions|
      invariant cumulative == Cum(ds, i)
      invariant FindWindow(ds, e) == FindWindowFrom(ds, e, i)
    {
      var qDuration := Duration(questions[i]);
      if e >= cumulative && e < cumulative + qDuration {
        foundIndex := i;
        qRemaining := cumulative + qDuration - e;
        return;
      }
      cumulative := cumulative + qDuration;
      i := i + 1;
    }
  }

  /** One broadcast leaderboard entry. */
  datatype Entry = Entry(userId: string, name: string, score: int)

  function NegScore(x: Entry): int { -x.score }

  /** Entries are in descending order of score. */
  ghost predicate ByScoreDescending(s: seq<Entry>) {
    forall i, j :: 0 <= i < j < |s| ==> s[i].score >= s[j].score
  }

  /** The entries of users other than `id`. */
  function Others(prev: seq<Entry>, id: string): seq<Entry> {
    Lists.Filter(prev, (x: Entry) => x.userId != id)
  }

  /**
   The `score_update` handler: drop the sender's old entry, append the payload
   and sort by score, highest first (a stable sort).
   */
  function MergeScore(prev: seq<Entry>, payload: Entry): (r: seq<Entry>)
    ensures ByScoreDescending(r)
    ensures multiset(r) == multiset(Others(prev, payload.userId)) + multiset{payload}
  {
    var others := Others(prev, payload.userId);
    assert multiset(others + [payload]) == multiset(others) + multiset{payload};
    Sorting.SortByPermutes(others + [payload], NegScore);
    Sorting.SortBy(others + [payload], NegScore)
  }

  /**
   After a merge the sender has exactly one entry, the payload itself, and
   every other user's entry is still there.
   */
  lemma MergeScoreKeepsOthers(prev: seq<Entry>, payload: Entry)
    ensures var r := MergeScore(prev, payload);
      && multiset(r)[payload] == 1
      && (forall k :: 0 <= k < |r| && r[k].userId == payload.userId ==> r[k] == payload)
      && (forall k :: 0 <= k < |prev| && prev[k].userId != payload.userId ==> prev[k] in r)
  {
    var r := MergeScore(prev, payload);
    var others := Others(prev, payload.userId);
    Lists.FilterMultiset(prev, (x: Entry) => x.userId != payload.userId, payload);
    forall k | 0 <= k < |r| && r[k].userId == payload.userId ensures r[k] == payload {
      assert r[k] in multiset(r);
    }
    forall k | 0 <= k < |prev| && prev[k].userId != payload.userId ensures prev[k] in r {
      assert prev[k] in others;
      assert prev[k] in multiset(r);
    }
  }

  /**
   Later broadcasts for the same user overwrite rather than add up: merging two
   scores for one user leaves the same entries as merging only the last.
   */
  lemma LatestScoreWins(prev: seq<Entry>, p1: Entry, p2: Entry)
    requires p1.userId == p2.userId
    ensures multiset(MergeScore(MergeScore(prev, p1), p2)) == multiset(MergeScore(prev, p2))
  {
    var id := p1.userId;
    var f := (x: Entry) => x.userId != id;
    var m1 := MergeScore(prev, p1);
    forall x ensures multiset(Others(m1, id))[x] == multiset(Others(prev, id))[x] {
      Lists.FilterMultiset(m1, f, x);
      Lists.FilterMultiset(prev, f, x);
    }
    assert multiset(Others(m1, id)) == multiset(Others(prev, id));
  }

  /** The server's verdict on one answer (`submitAnswerSecure`, whose scoring is not part of this model). */
  datatype SubmitResult =
    | Accepted(points: Option<int>)     // `{ success: true, points }`
    | Rejected(error: Option<string>)   // `{ error }`

  /** What the client sends to the server for one answer. */
  datatype Submission = Submission(questionId: int, chosenIndex: int, responseTimeMs: int)

  /** The response time sent with an answer: milliseconds since the question opened. */
  function ResponseTimeMs(q: Question, qTimeRemaining: int): (ms: int)
    ensures qTimeRemaining == Duration(q) ==> ms == 0
    ensures ms % 1000 == 0 && ms / 1000 == Duration(q) - qTimeRemaining
  {
    (Duration(q) - qTimeRemaining) * 1000
  }

  /** The client state of the play screen once the quiz and its questions are loaded. */
  class QuizPlayer {
    const questions: seq<Question>
    const scheduledAt: Option<int>       // start time in milliseconds
    const durationMinutes: Option<int>

    var currentQuestionIndex: int
    var qTimeRemaining: int
    var quizTimeRemaining: int
    var selectedOption: Option<int>
    var showResult: bool
    var isCorrect: Option<bool>
    var pointsEarned: int
    var totalScore: int
    var leaderboard: seq<Entry>

    constructor (questions: seq<Question>, scheduledAt: Option<int>, durationMinutes: Option<int>)
      ensures this.questions == questions && this.scheduledAt == scheduledAt && this.durationMinutes == durationMinutes
      ensures currentQuestionIndex == -1 && qTimeRemaining == 0 && quizTimeRemaining == 0
      ensures selectedOption == None && !showResult && isCorrect == None
      ensures pointsEarned == 0 && totalScore == 0 && leaderboard == []
    {
      this.questions := questions;
      this.scheduledAt := scheduledAt;
      this.durationMinutes := durationMinutes;
      currentQuestionIndex := -1;
      qTimeRemaining, quizTimeRemaining := 0, 0;
      selectedOption, showResult, isCorrect := None, false, None;
      pointsEarned, totalScore := 0, 0;
      leaderboard := [];
    }

    /**
     One synchronisation tick at `nowMs`. It runs only for a scheduled quiz
     with questions. The index moves to what `Resolve` says; the answer state is
     reset only when the index changes to a different question.
     */
    method Sync(nowMs: int)
      modifies this
      ensures pointsEarned == old(pointsEarned) && totalScore == old(totalScore) && leaderboard == old(leaderboard)
      ensures scheduledAt.None? || |questions| == 0 ==>
        currentQuestionIndex == old(currentQuestionIndex) && qTimeRemaining == old(qTimeRemaining)
        && quizTimeRemaining == old(quizTimeRemaining) && selectedOption == old(selectedOption)
        && showResult == old(showResult) && isCorrect == old(isCorrect)
      ensures scheduledAt.Some? && |questions| > 0 ==>
        var e := ElapsedSeconds(nowMs, scheduledAt.value);
        var total := TotalSeconds(durationMinutes);
        var p := Resolve(total, Durations(questions), e);
        && quizTimeRemaining == RemainingQuizTime(total, e)
        && qTimeRemaining == (if p.Active? then p.qRemaining else old(qTimeRemaining))
        && currentQuestionIndex == (match p
                                    case Finished => |questions|
                                    case Active(i, _) => i
                                    case NoWindow => old(currentQuestionIndex))
        && (if p.Active? && p.index != old(currentQuestionIndex) then
              selectedOption == None && !showResult && isCorrect == None
            else
              selectedOption == old(selectedOption) && showResult == old(showResult) && isCorrect == old(isCorrect))
    {
      if scheduledAt.None? || |questions| == 0 {
        return;
      }
      var e := ElapsedSeconds(nowMs, scheduledAt.value);
      var totalDuration := TotalSeconds(durationMinutes);
      var remainingQuizTime := RemainingQuizTime(totalDuration, e);
      quizTimeRemaining := remainingQuizTime;
      if remainingQuizTime <= 0 {
        currentQuestionIndex := |questions|;
        return;
      }
      var foundIndex, cumulative, qRemaining := LocateQuestion(questions, e);
      if foundIndex >= 0 {
        qTimeRemaining := qRemaining;
      }
      if foundIndex == -1 && e >= cumulative && |questions| > 0 {
        currentQuestionIndex := |questions|;
      } else if foundIndex != -1 && foundIndex != currentQuestionIndex {
        currentQuestionIndex := foundIndex;
        selectedOption := None;
        showResult := false;
        isCorrect := None;
      }
    }

    /**
     A click on option `index`, with the server's verdict `result`. Ignored once
     the result is shown or before the first question. Otherwise the option is
     selected, the submission carries the response time, and an accepted one
     adds exactly its points (default 0) to the total and is broadcast.
     */
    method SelectOption(index: int, result: SubmitResult) returns (sent: Option<Submission>, broadcast: Option<Entry>)
      requires currentQuestionIndex < |questions|
      modifies this
      ensures currentQuestionIndex == old(currentQuestionIndex) && qTimeRemaining == old(qTimeRemaining)
      ensures quizTimeRemaining == old(quizTimeRemaining) && isCorrect == old(isCorrect) && leaderboard == old(leaderboard)
      ensures old(showResult) || old(currentQuestionIndex) < 0 ==>
        sent == None && broadcast == None && selectedOption == old(selectedOption) && showResult == old(showResult)
        && pointsEarned == old(pointsEarned) && totalScore == old(totalScore)
      ensures !old(showResult) && old(currentQuestionIndex) >= 0 ==>
        var q := questions[old(currentQuestionIndex)];
        && selectedOption == Some(index)
        && sent == Some(Submission(q.id, index, ResponseTimeMs(q, old(qTimeRemaining))))
        && (result.Accepted? ==>
              && pointsEarned == result.points.GetOr(0)
              && totalScore == old(totalScore) + result.points.GetOr(0)
              && showResult
              && broadcast == Some(Entry("me", "You", old(totalScore) + result.points.GetOr(0))))
        && (result.Rejected? ==>
              pointsEarned == old(pointsEarned) && totalScore == old(totalScore)
              && showResult == old(showResult) && broadcast == None)
    {
      sent, broadcast := None, None;
      if showResult || currentQuestionIndex < 0 {
        return;
      }
      selectedOption := Some(index);
      var currentQ := questions[currentQuestionIndex];
      var responseTimeMs := ResponseTimeMs(currentQ, qTimeRemaining);
      sent := Some(Submission(currentQ.id, index, responseTimeMs));
      match result {
        case Accepted(points) =>
          var earned := points.GetOr(0);
          pointsEarned := earned;
          totalScore := totalScore + earned;
          showResult := true;
          broadcast := Some(Entry("me", "You", totalScore));
        case Rejected(_) =>
      }
    }

    /** A `score_update` broadcast arriving from another client. */
    method OnScoreUpdate(payload: Entry)
      modifies this`leaderboard
      ensures leaderboard == MergeScore(old(leaderboard), payload)
    {
      leaderboard := MergeScore(leaderboard, payload);
    }
  }
}
