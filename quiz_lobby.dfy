/**
 The quiz lobby: the registration gate, the presence roster, the countdown to
 the scheduled start and the auto-start decision that asks the server to take
 the quiz live once the countdown reaches zero, plus the small display
 helpers. Navigation is returned as an outcome value.
 */
module QuizLobby {
  import opened Wrappers
  import Text
  import Lists

  /** The reply that means another client (or the schedule) already started the quiz. */
  const AlreadyLiveError: string := "Quiz already live or finished"

  datatype Nav = Stay | GoPlay | GoDetail

  /** The quiz row as the status query returns it. */
  datatype QuizRow = QuizRow(scheduledAt: Option<int>, status: string, isRegistered: bool)

  datatype Profile = Profile(id: string, fullName: Option<string>, handle: Option<string>, avatarUrl: Option<string>)

  /** What a client announces on the presence channel. */
  datatype UserInfo = UserInfo(id: string, name: string, handle: string, avatar: Option<string>)

  /** The `user_info` this client tracks once its presence channel is subscribed. */
  function TrackedInfo(p: Profile): (u: UserInfo)
    ensures u.id == p.id && u.avatar == p.avatarUrl
    ensures u.name == (if p.fullName.Some? && p.fullName.value != "" then p.fullName.value else "Anonymous Participant")
    ensures u.handle == (if p.handle.Some? && p.handle.value != "" then p.handle.value else "Guest")
  {
    UserInfo(p.id, Text.OrDefault(p.fullName, "Anonymous Participant"), Text.OrDefault(p.handle, "Guest"), p.avatarUrl)
  }

  /** The presence state: for each key, in key order, the records tracked under it. */
  ghost predicate WellFormedPresence(keys: seq<string>, state: map<string, seq<UserInfo>>) {
    && (forall i, j :: 0 <= i < j < |keys| ==> keys[i] != keys[j])
    && (forall k :: k in state <==> k in keys)
    && (forall k :: 0 <= k < |keys| ==> |state[keys[k]]| > 0)
  }

  /** Distinct keys: as many roster entries as keys in the state. */
  lemma {:induction false} DistinctCard(keys: seq<string>)
    requires forall i, j :: 0 <= i < j < |keys| ==> keys[i] != keys[j]
    ensures |set k | k in keys| == |keys|
  {
    if keys != [] {
      var rest := keys[1..];
      DistinctCard(rest);
      assert (set k | k in keys) == (set k | k in rest) + {keys[0]};
      assert keys[0] !in rest;
    }
  }

  /**
   The participant list: one roster entry per presence key, in key order,
   namely the first record tracked under that key.
   */
  function Roster(keys: seq<string>, state: map<string, seq<UserInfo>>): (r: seq<UserInfo>)
    requires WellFormedPresence(keys, state)
    ensures |r| == |keys| && |r| == |state.Keys|
    ensures forall k :: 0 <= k < |r| ==> r[k] == state[keys[k]][0]
  {
    DistinctCard(keys);
    assert state.Keys == set k | k in keys;
    seq(|keys|, k requires 0 <= k < |keys| => state[keys[k]][0])
  }

  /** Whole seconds until the start, rounded down and never below zero. */
  function Countdown(targetMs: int, nowMs: int): (d: nat)
    ensures d == 0 <==> targetMs - nowMs < 1000
    ensures d > 0 ==> d * 1000 <= targetMs - nowMs < d * 1000 + 1000
  {
    var s := (targetMs - nowMs) / 1000;
    if s > 0 then s else 0
  }

  datatype Decision = Wait | NavigatePlay | CallAutoStart

  /**
   The auto-start decision of one tick: nothing unless the countdown is at zero
   and no start is in flight; an already live quiz navigates to play without
   calling the server; otherwise the server is asked to start it.
   */
  function TickDecision(diff: nat, isStarting: bool, status: string): (d: Decision)
    ensures d != Wait <==> diff == 0 && !isStarting
    ensures d == NavigatePlay <==> diff == 0 && !isStarting && status == "live"
    ensures d == CallAutoStart <==> diff == 0 && !isStarting && status != "live"
  {
    if diff <= 0 && !isStarting then
      if status == "live" then NavigatePlay else CallAutoStart
    else Wait
  }

  /**
   Interprets the reply of `autoStartQuiz`: "already live or finished" counts as
   success and navigates to play; any other error clears `isStarting` so that a
   later tick retries; success keeps it set.
   */
  function AfterAutoStart(error: Option<string>): (r: (Nav, bool))
    ensures r.0 == GoPlay <==> error == Some(AlreadyLiveError)
    ensures r.0 != GoDetail
    ensures !r.1 <==> Text.IsError(error) && error.value != AlreadyLiveError
  {
    if Text.IsError(error) then
      if error.value == AlreadyLiveError then (GoPlay, true) else (Stay, false)
    else (Stay, true)
  }

  /** One event seen by the lobby's timer: a tick, or the reply to an auto-start call. */
  datatype LobbyEvent = Tick(nowMs: int) | AutoStartReply(error: Option<string>)

  /** A tick of the countdown interval. */
  predicate IsTick(ev: LobbyEvent) { ev.Tick? }

  /**
   The number of `autoStartQuiz` calls a run of events makes. With
   `staleClosure` the tick reads `isStarting` as it was when the timer was set
   up (always false); otherwise it reads the current flag. A navigation to play
   leaves the page and ends the run.
   */
  function AutoStartCalls(targetMs: int, status: string, evs: seq<LobbyEvent>, isStarting: bool, staleClosure: bool): (n: nat)
    ensures n <= Lists.Count(evs, IsTick)
    decreases |evs|
  {
    if evs == [] then 0
    else match evs[0]
      case Tick(now) =>
        var seen := if staleClosure then false else isStarting;
        var d := TickDecision(Countdown(targetMs, now), seen, status);
        if d == CallAutoStart then 1 + AutoStartCalls(targetMs, status, evs[1..], true, staleClosure)
        else if d == NavigatePlay then 0
        else AutoStartCalls(targetMs, status, evs[1..], isStarting, staleClosure)
      case AutoStartReply(error) =>
        var (nav, starting) := AfterAutoStart(error);
        if nav == GoPlay then 0
        else AutoStartCalls(targetMs, status, evs[1..], if Text.IsError(error) then starting else isStarting, staleClosure)
  }

  /** The reply does not ask for a retry. */
  predicate NotRetryable(ev: LobbyEvent) {
    ev.AutoStartReply? ==> !Text.IsError(ev.error) || ev.error.value == AlreadyLiveError
  }

  /**
   Reading the current flag, the lobby calls `autoStartQuiz` at most once
   unless a reply asks for a retry, and not at all while a call is in flight.
   */
  lemma {:induction false} LiveFlagCallsAutoStartOnce(targetMs: int, status: string, evs: seq<LobbyEvent>, isStarting: bool)
    requires forall k :: 0 <= k < |evs| ==> NotRetryable(evs[k])
    ensures AutoStartCalls(targetMs, status, evs, isStarting, false) <= (if isStarting then 0 else 1)
    decreases |evs|
  {
    if evs != [] {
      LiveFlagCallsAutoStartOnce(targetMs, status, evs[1..], true);
      LiveFlagCallsAutoStartOnce(targetMs, status, evs[1..], isStarting);
    }
  }

  /**
   As written, the timer closure never sees `isStarting` change: after a
   successful start, the next tick calls `autoStartQuiz` a second time.
   */
  lemma StaleClosureCallsAutoStartTwice(targetMs: int)
    ensures var evs := [Tick(targetMs), AutoStartReply(None), Tick(targetMs + 1000)];
      && AutoStartCalls(targetMs, "scheduled", evs, false, true) == 2
      && AutoStartCalls(targetMs, "scheduled", evs, false, false) == 1
  {
    var last := [Tick(targetMs + 1000)];
    var tail := [AutoStartReply(None)] + last;
    var evs := [Tick(targetMs)] + tail;
    assert Countdown(targetMs, targetMs) == 0 && Countdown(targetMs, targetMs + 1000) == 0;
    assert evs[1..] == tail && tail[1..] == last && last[1..] == [];
    assert AutoStartCalls(targetMs, "scheduled", last, true, true) == 1;
    assert AutoStartCalls(targetMs, "scheduled", tail, true, true) == 1;
    assert AutoStartCalls(targetMs, "scheduled", last, true, false) == 0;
    assert AutoStartCalls(targetMs, "scheduled", tail, true, false) == 0;
  }

  /** The lobby clock: dashes while the countdown is unknown, `m:ss` otherwise. */
  function FormatTime(seconds: Option<nat>): (r: string)
    ensures seconds.None? ==> r == "--:--"
    ensures seconds.Some? ==> Text.ParseMinSec(r) == Some((seconds.value / 60, seconds.value % 60))
  {
    match seconds
    case None => "--:--"
    case Some(s) =>
      Text.FormatMinSecReadsBack(s);
      Text.FormatMinSec(s)
  }

  const Gradients: seq<string> := [
    "from-amber-500/20 to-orange-500/20 border-amber-500/30",
    "from-purple-500/20 to-pink-500/20 border-purple-500/30",
    "from-blue-500/20 to-cyan-500/20 border-blue-500/30",
    "from-emerald-500/20 to-teal-500/20 border-emerald-500/30"
  ]

  /** The avatar gradient of a roster position: the four gradients in rotation. */
  function GradientColor(index: nat): (g: string)
    ensures g in Gradients
  {
    Gradients[index % |Gradients|]
  }

  /** The palette cycles every four places and neighbours never share a colour. */
  lemma GradientCycles(index: nat)
    ensures GradientColor(index + 4) == GradientColor(index)
    ensures GradientColor(index + 1) != GradientColor(index)
  {
    assert (index + 4) % 4 == index % 4;
    assert (index + 1) % 4 == (index % 4 + 1) % 4;
  }

  /** The lobby page of one client. */
  class LobbyPage {
    var quiz: Option<QuizRow>
    var loading: bool
    var isStarting: bool
    var timeRemaining: Option<nat>
    var participants: seq<UserInfo>
    var presenceKey: Option<string>   // the presence channel, keyed by profile id, once created

    constructor ()
      ensures quiz == None && loading && !isStarting && timeRemaining == None
      ensures participants == [] && presenceKey == None
    {
      quiz, loading, isStarting, timeRemaining := None, true, false, None;
      participants, presenceKey := [], None;
    }

    /**
     The initial load. An unregistered user is sent to the quiz's detail page
     before any presence channel exists; otherwise loading ends and, with a
     profile, a presence channel keyed by the profile id is created.
     */
    method Init(statusRes: Option<QuizRow>, profile: Option<Profile>) returns (nav: Nav)
      modifies this
      ensures isStarting == old(isStarting) && timeRemaining == old(timeRemaining) && participants == old(participants)
      ensures quiz == (if statusRes.Some? then statusRes else old(quiz))
      ensures nav == GoDetail <==> statusRes.Some? && !statusRes.value.isRegistered
      ensures nav == GoDetail ==> loading == old(loading) && presenceKey == old(presenceKey)
      ensures nav != GoDetail ==>
        && nav == Stay && !loading
        && presenceKey == (if profile.Some? then Some(profile.value.id) else old(presenceKey))
    {
      if statusRes.Some? {
        quiz := statusRes;
        if !statusRes.value.isRegistered {
          return GoDetail;
        }
      }
      loading := false;
      if profile.Some? {
        presenceKey := Some(profile.value.id);
      }
      return Stay;
    }

    /** A presence sync, join or leave: the roster is rebuilt from the channel state. */
    method OnPresence(keys: seq<string>, state: map<string, seq<UserInfo>>)
      requires WellFormedPresence(keys, state)
      modifies this`participants
      ensures participants == Roster(keys, state)
    {
      participants := Roster(keys, state);
    }

    /**
     One countdown tick at `nowMs`. A quiz without a start time does nothing.
     Otherwise the countdown is stored, and at zero, with no start in flight,
     an already live quiz navigates and any other asks the server to start it,
     setting `isStarting` first.
     */
    method UpdateTimer(nowMs: int) returns (d: Decision)
      modifies this`timeRemaining, this`isStarting
      ensures quiz.None? || quiz.value.scheduledAt.None? ==>
        d == Wait && timeRemaining == old(timeRemaining) && isStarting == old(isStarting)
      ensures quiz.Some? && quiz.value.scheduledAt.Some? ==>
        var diff := Countdown(quiz.value.scheduledAt.value, nowMs);
        && timeRemaining == Some(diff)
        && d == TickDecision(diff, old(isStarting), quiz.value.status)
        && isStarting == (old(isStarting) || d == CallAutoStart)
    {
      if quiz.None? || quiz.value.scheduledAt.None? {
        return Wait;
      }
      var diff := Countdown(quiz.value.scheduledAt.value, nowMs);
      timeRemaining := Some(diff);
      d := TickDecision(diff, isStarting, quiz.value.status);
      if d == CallAutoStart {
        isStarting := true;
      }
    }

    /** The reply to an auto-start call. */
    method AutoStartReturned(error: Option<string>) returns (nav: Nav)
      modifies this`isStarting
      ensures nav == AfterAutoStart(error).0
      ensures isStarting == (if Text.IsError(error) then AfterAutoStart(error).1 else old(isStarting))
    {
      var r := AfterAutoStart(error);
      nav := r.0;
      if Text.IsError(error) {
        isStarting := r.1;
      }
    }

    /** A remote update of the quiz row: play starts exactly when the new status is live. */
    method OnStatusChange(newStatus: string) returns (nav: Nav)
      ensures nav == GoPlay <==> newStatus == "live"
      ensures nav != GoPlay ==> nav == Stay
    {
      nav := if newStatus == "live" then GoPlay else Stay;
    }
  }
}
