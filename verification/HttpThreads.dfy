/**
 The threaded HTTP runner: the caller launches one goroutine per thread, each goroutine sends its share of
 the requests and writes its own slot of the results, and the caller waits on a WaitGroup before it reads
 them.  Launching, sending one request, writing a slot, Done and Wait are the atomic steps.
 */
module HttpThreads {

  /** What one request gets: a response whose body was read, or an error on the way. */
  datatype Answer = Status(code: int) | TransportError

  /** A slot of the results; Unset is the empty string that `make` leaves there. */
  datatype Slot = Unset | Success | Error

  /** One call of the runner.  `answer(t, i)` is what thread t's request i gets when it is sent. */
  datatype Job = Job(requestCount: int, threadCount: nat, answer: (nat, nat) -> Answer)

  // ---------- Starting ----------

  datatype Launch = Panic | Refused | Started

  /** Go's % panics on a zero divisor, and `make` on a negative length. */
  function LaunchOf(requestCount: int, threadCount: int): Launch {
    if threadCount == 0 then Panic
    else if requestCount % threadCount != 0 then Refused
    else if threadCount < 0 then Panic
    else Started
  }

  ghost predicate Multiple(a: int, b: int) {
    exists k: int :: a == b * k
  }

  /** The runner starts for a positive number of threads that divides the number of requests, and refuses a number
      that does not. */
  lemma LaunchIff(requestCount: int, threadCount: int)
    ensures LaunchOf(requestCount, threadCount).Started? <==> threadCount > 0 && Multiple(requestCount, threadCount)
    ensures LaunchOf(requestCount, threadCount).Refused? <==> threadCount != 0 && !Multiple(requestCount, threadCount)
  {
    if threadCount != 0 {
      RemainderIff(requestCount, threadCount);
    }
  }

  lemma RemainderIff(a: int, b: int)
    requires b != 0
    ensures a % b == 0 <==> Multiple(a, b)
  {
    assert a == b * (a / b) + a % b;
    if a % b == 0 {
      assert a == b * (a / b);
    }
    if k: int :| a == b * k {
      var r := a % b;
      assert r == b * (k - a / b);
      SmallMultiple(r, b, k - a / b);
    }
  }

  lemma MulAtLeast(b: int, k: int)
    requires b > 0 && k > 0
    ensures b * k >= b
  {
  }

  lemma SmallMultiple(r: int, b: int, k: int)
    requires b != 0 && r == b * k && 0 <= r < (if b > 0 then b else -b)
    ensures r == 0
  {
    var n := if b > 0 then b else -b;
    var m := if b > 0 then k else -k;
    assert r == n * m;
    if m > 0 {
      MulAtLeast(n, m);
      assert false;
    }
    if m < 0 {
      MulAtLeast(n, -m);
      assert false;
    }
  }

  predicate Runs(job: Job) {
    LaunchOf(job.requestCount, job.threadCount).Started?
  }

  /** The requests a thread has to send; none if the count is negative.  The division is exact, so Go's
      truncation does not show. */
  function Quota(job: Job): nat
    requires Runs(job)
  {
    if job.requestCount < 0 then 0 else job.requestCount / job.threadCount
  }

  predicate Expected(a: Answer) {
    a.Status? && 200 <= a.code < 300
  }

  predicate AllExpected(job: Job, t: nat, n: nat) {
    forall i: nat | i < n :: Expected(job.answer(t, i))
  }

  /** What a thread's slot has to hold in the end, whatever the schedule. */
  function FinalSlot(job: Job, t: nat): Slot
    requires Runs(job)
  {
    if AllExpected(job, t, Quota(job)) then Success else Error
  }

  /** The requests that thread t gets answered as expected, given that the first i were: it stops at the first
      that is not. */
  function GoodRequests(job: Job, t: nat, i: nat): (good: nat)
    requires Runs(job) && i <= Quota(job)
    ensures i <= good <= Quota(job) && forall j: nat | i <= j < good :: Expected(job.answer(t, j))
    ensures good == Quota(job) || !Expected(job.answer(t, good))
    decreases Quota(job) - i
  {
    if i == Quota(job) || !Expected(job.answer(t, i)) then i else GoodRequests(job, t, i + 1)
  }

  lemma {:induction false} GoodRequestsSkip(job: Job, t: nat, i: nat)
    requires Runs(job) && i <= Quota(job) && AllExpected(job, t, i)
    ensures GoodRequests(job, t, 0) == GoodRequests(job, t, i)
  {
    if i > 0 {
      GoodRequestsSkip(job, t, i - 1);
    }
  }

  // ---------- The goroutine and the check of the results, as loops ----------

  /** Sends the share of one thread and sets its slot, and no other. */
  method RunRequestRoutine(threadID: nat, job: Job, results: array<Slot>) returns (sent: nat)
    requires Runs(job) && threadID < results.Length
    modifies results
    ensures results[..] == old(results[..])[threadID := FinalSlot(job, threadID)]
    ensures results[threadID] == Success <==> forall i: nat | i < job.requestCount / job.threadCount ::
              job.answer(threadID, i).Status? && 200 <= job.answer(threadID, i).code <= 299
    ensures results[threadID] == Success || results[threadID] == Error
    ensures forall i: nat | i + 1 < sent ::
              job.answer(threadID, i).Status? && 200 <= job.answer(threadID, i).code <= 299
    ensures results[threadID] == Error ==>
              sent > 0 && !(job.answer(threadID, sent - 1).Status? && 200 <= job.answer(threadID, sent - 1).code <= 299)
    ensures var good := GoodRequests(job, threadID, 0);
      sent == if good == Quota(job) then good else good + 1
  {
    sent := 0;
    while sent < Quota(job)
      invariant sent <= Quota(job) && AllExpected(job, threadID, sent)
      invariant results[..] == old(results[..])
    {
      GoodRequestsSkip(job, threadID, sent);
      sent := sent + 1;
      match job.answer(threadID, sent - 1) {
        case TransportError =>
          results[threadID] := Error;
          return;
        case Status(code) =>
          if !(200 <= code < 300) {
            results[threadID] := Error;
            return;
          }
      }
    }
    GoodRequestsSkip(job, threadID, sent);
    QuotaIsShare(job);
    results[threadID] := Success;
  }

  /** The step's verdict on the results: an error unless every one of the first threadCount is a success. */
  method CheckResults(results: seq<Slot>, threadCount: nat) returns (ok: bool)
    requires threadCount <= |results|
    ensures ok <==> forall t :: 0 <= t < threadCount ==> results[t] == Success
  {
    for i := 0 to threadCount
      invariant forall t :: 0 <= t < i ==> results[t] == Success
    {
      if results[i] != Success {
        return false;
      }
    }
    return true;
  }

  // ---------- All threads together ----------

  /** Where a goroutine is.  `good` counts its requests that were answered as expected so far. */
  datatype Pc =
    | Idle
    | Sending(good: nat)
    | Failing(good: nat)
    | Written(ok: bool, good: nat)
    | Finished(ok: bool, good: nat)

  /** `launched` is the caller's loop counter and `pending` the WaitGroup's counter; `sent` and `expected` are
      the requests that the server got and those that it answered as expected. */
  datatype State = State(pcs: seq<Pc>, launched: nat, pending: int, results: seq<Slot>, sent: nat, expected: nat,
                         returned: bool)

  datatype Action = Spawn | Request(t: nat) | Write(t: nat) | Done(t: nat) | Return

  function Init(job: Job): State {
    State(seq(job.threadCount, _ => Idle), 0, job.threadCount, seq(job.threadCount, _ => Unset), 0, 0, false)
  }

  predicate Enabled(job: Job, s: State, a: Action)
    requires Runs(job)
  {
    match a
    case Spawn => s.launched < |s.pcs|
    case Request(t) => t < |s.pcs| && s.pcs[t].Sending? && s.pcs[t].good < Quota(job)
    case Write(t) =>
      && t < |s.pcs| && t < |s.results|
      && (s.pcs[t].Failing? || (s.pcs[t].Sending? && s.pcs[t].good >= Quota(job)))
    case Done(t) => t < |s.pcs| && s.pcs[t].Written?
    case Return => s.launched == |s.pcs| && s.pending == 0 && !s.returned
  }

  function Apply(job: Job, s: State, a: Action): State
    requires Runs(job) && Enabled(job, s, a)
  {
    match a
    case Spawn => s.(pcs := s.pcs[s.launched := Sending(0)], launched := s.launched + 1)
    case Request(t) =>
      var good := s.pcs[t].good;
      if Expected(job.answer(t, good)) then
        s.(pcs := s.pcs[t := Sending(good + 1)], sent := s.sent + 1, expected := s.expected + 1)
      else s.(pcs := s.pcs[t := Failing(good)], sent := s.sent + 1)
    case Write(t) =>
      var ok := s.pcs[t].Sending?;
      s.(pcs := s.pcs[t := Written(ok, s.pcs[t].good)], results := s.results[t := if ok then Success else Error])
    case Done(t) =>
      s.(pcs := s.pcs[t := Finished(s.pcs[t].ok, s.pcs[t].good)], pending := s.pending - 1)
    case Return => s.(returned := true)
  }

  predicate Legal(job: Job, s: State, run: seq<Action>)
    requires Runs(job)
    decreases |run|
  {
    run == [] || (Enabled(job, s, run[0]) && Legal(job, Apply(job, s, run[0]), run[1..]))
  }

  function Exec(job: Job, s: State, run: seq<Action>): State
    requires Runs(job) && Legal(job, s, run)
    decreases |run|
  {
    if run == [] then s else Exec(job, Apply(job, s, run[0]), run[1..])
  }

  // ---------- Sums over the threads ----------

  function Sum(pcs: seq<Pc>, f: Pc -> nat): nat {
    if pcs == [] then 0 else f(pcs[0]) + Sum(pcs[1..], f)
  }

  lemma {:induction false} SumUpdate(pcs: seq<Pc>, t: nat, pc: Pc, f: Pc -> nat)
    requires t < |pcs|
    ensures Sum(pcs[t := pc], f) + f(pcs[t]) == Sum(pcs, f) + f(pc)
  {
    if t > 0 {
      SumUpdate(pcs[1..], t - 1, pc, f);
      assert pcs[t := pc][1..] == pcs[1..][t - 1 := pc];
    }
  }

  lemma {:induction false} SumOfEqual(pcs: seq<Pc>, f: Pc -> nat, c: nat)
    requires forall t :: 0 <= t < |pcs| ==> f(pcs[t]) == c
    ensures Sum(pcs, f) == |pcs| * c
  {
    if pcs != [] {
      SumOfEqual(pcs[1..], f, c);
    }
  }

  /** A sum of terms of at most c is at most |pcs| * c, and is that only if every term is c. */
  lemma {:induction false} SumBound(pcs: seq<Pc>, f: Pc -> nat, c: nat)
    requires forall t :: 0 <= t < |pcs| ==> f(pcs[t]) <= c
    ensures Sum(pcs, f) <= |pcs| * c
    ensures Sum(pcs, f) == |pcs| * c <==> forall t :: 0 <= t < |pcs| ==> f(pcs[t]) == c
  {
    if pcs != [] {
      SumBound(pcs[1..], f, c);
      assert |pcs| * c == c + |pcs[1..]| * c;
      if Sum(pcs, f) == |pcs| * c {
        forall t | 0 <= t < |pcs|
          ensures f(pcs[t]) == c
        {
          if t > 0 {
            assert pcs[1..][t - 1] == pcs[t];
          }
        }
      }
    }
  }

  lemma {:induction false} SumLeq(pcs: seq<Pc>, f: Pc -> nat, g: Pc -> nat)
    requires forall t :: 0 <= t < |pcs| ==> f(pcs[t]) <= g(pcs[t])
    ensures Sum(pcs, f) <= Sum(pcs, g)
  {
    if pcs != [] {
      SumLeq(pcs[1..], f, g);
    }
  }

  function Unfinished(pc: Pc): nat {
    if pc.Finished? then 0 else 1
  }

  function Good(pc: Pc): nat {
    if pc.Idle? then 0 else pc.good
  }

  function Sent(pc: Pc): nat {
    Good(pc) + if pc.Failing? || ((pc.Written? || pc.Finished?) && !pc.ok) then 1 else 0
  }

  // ---------- The invariant ----------

  /** A thread's place, its slot and its answers fit together. */
  predicate ThreadOk(job: Job, t: nat, pc: Pc, slot: Slot)
    requires Runs(job)
  {
    match pc
    case Idle => slot == Unset
    case Sending(good) => slot == Unset && good <= Quota(job) && AllExpected(job, t, good)
    case Failing(good) => slot == Unset && good == GoodRequests(job, t, 0) < Quota(job)
    case Written(ok, good) => slot == FinalSlot(job, t) && good == GoodRequests(job, t, 0) && (ok <==> slot == Success)
    case Finished(ok, good) => slot == FinalSlot(job, t) && good == GoodRequests(job, t, 0) && (ok <==> slot == Success)
  }

  predicate Inv(job: Job, s: State)
    requires Runs(job)
  {
    && |s.pcs| == |s.results| == job.threadCount && s.launched <= |s.pcs|
    && (forall t :: 0 <= t < |s.pcs| ==> (s.pcs[t].Idle? <==> s.launched <= t))
    && (forall t :: 0 <= t < |s.pcs| ==> ThreadOk(job, t, s.pcs[t], s.results[t]))
    && s.pending == Sum(s.pcs, Unfinished)
    && s.sent == Sum(s.pcs, Sent)
    && s.expected == Sum(s.pcs, Good)
    && (s.returned ==> s.launched == |s.pcs| && s.pending == 0)
  }

  lemma InitInv(job: Job)
    requires Runs(job)
    ensures Inv(job, Init(job))
  {
    var pcs := Init(job).pcs;
    SumOfEqual(pcs, Unfinished, 1);
    SumOfEqual(pcs, Sent, 0);
    SumOfEqual(pcs, Good, 0);
  }

  /** All that a step has to show: the place that changed fits, and the counters moved with it. */
  lemma PlaceChanged(job: Job, s: State, s': State, t: nat, pc: Pc)
    requires Runs(job) && Inv(job, s) && t < |s.pcs| && s'.pcs == s.pcs[t := pc]
    requires |s'.results| == |s.results| && forall u :: 0 <= u < |s.pcs| && u != t ==> s'.results[u] == s.results[u]
    requires ThreadOk(job, t, pc, s'.results[t])
    requires s'.launched == (if s.pcs[t].Idle? then s.launched + 1 else s.launched) && s'.returned == s.returned
    requires !pc.Idle? && (s.pcs[t].Idle? ==> t == s.launched)
    requires s'.pending == s.pending - Unfinished(s.pcs[t]) + Unfinished(pc)
    requires s'.sent == s.sent - Sent(s.pcs[t]) + Sent(pc)
    requires s'.expected == s.expected - Good(s.pcs[t]) + Good(pc)
    requires s.returned ==> s'.pending == 0
    ensures Inv(job, s')
  {
    SumUpdate(s.pcs, t, pc, Unfinished);
    SumUpdate(s.pcs, t, pc, Sent);
    SumUpdate(s.pcs, t, pc, Good);
  }

  /** Once the counter is zero every thread is finished. */
  lemma {:induction false} AllFinished(pcs: seq<Pc>)
    requires Sum(pcs, Unfinished) == 0
    ensures forall t :: 0 <= t < |pcs| ==> pcs[t].Finished?
  {
    if pcs != [] {
      AllFinished(pcs[1..]);
      assert forall t :: 0 < t < |pcs| ==> pcs[t] == pcs[1..][t - 1];
    }
  }

  lemma RequestKeepsInv(job: Job, s: State, t: nat)
    requires Runs(job) && Inv(job, s) && Enabled(job, s, Request(t))
    ensures Inv(job, Apply(job, s, Request(t)))
  {
    var s' := Apply(job, s, Request(t));
    var good := s.pcs[t].good;
    assert ThreadOk(job, t, s.pcs[t], s.results[t]);
    GoodRequestsSkip(job, t, good);
    if s.returned {
      AllFinished(s.pcs);
      assert false;
    }
    PlaceChanged(job, s, s', t, s'.pcs[t]);
  }

  lemma WriteKeepsInv(job: Job, s: State, t: nat)
    requires Runs(job) && Inv(job, s) && Enabled(job, s, Write(t))
    ensures Inv(job, Apply(job, s, Write(t)))
  {
    var s' := Apply(job, s, Write(t));
    assert ThreadOk(job, t, s.pcs[t], s.results[t]);
    if s.pcs[t].Sending? {
      GoodRequestsSkip(job, t, s.pcs[t].good);
    }
    PlaceChanged(job, s, s', t, s'.pcs[t]);
  }

  lemma StepKeepsInv(job: Job, s: State, a: Action)
    requires Runs(job) && Inv(job, s) && Enabled(job, s, a)
    ensures Inv(job, Apply(job, s, a))
  {
    var s' := Apply(job, s, a);
    match a {
      case Spawn =>
        assert s.pcs[s.launched].Idle?;
        assert ThreadOk(job, s.launched, s.pcs[s.launched], s.results[s.launched]);
        PlaceChanged(job, s, s', s.launched, Sending(0));
      case Request(t) => RequestKeepsInv(job, s, t);
      case Write(t) => WriteKeepsInv(job, s, t);
      case Done(t) =>
        assert ThreadOk(job, t, s.pcs[t], s.results[t]);
        if s.returned {
          AllFinished(s.pcs);
          assert false;
        }
        PlaceChanged(job, s, s', t, s'.pcs[t]);
      case Return =>
    }
  }

  lemma {:induction false} RunKeepsInv(job: Job, s: State, run: seq<Action>)
    requires Runs(job) && Inv(job, s) && Legal(job, s, run)
    ensures Inv(job, Exec(job, s, run))
    decreases |run|
  {
    if run != [] {
      StepKeepsInv(job, s, run[0]);
      RunKeepsInv(job, Apply(job, s, run[0]), run[1..]);
    }
  }

  // ---------- The properties, over every schedule ----------

  /** A step changes no slot but that of the thread that takes it, and that one only from unset to the
      thread's verdict. */
  lemma OnlyOwnSlotWrittenOnce(job: Job, s: State, a: Action, t: nat)
    requires Runs(job) && Inv(job, s) && Enabled(job, s, a) && t < |s.results|
    ensures var slot := Apply(job, s, a).results[t];
      slot != s.results[t] ==> a == Write(t) && s.results[t] == Unset && slot == FinalSlot(job, t)
  {
    StepKeepsInv(job, s, a);
    if a == Write(t) {
      assert ThreadOk(job, t, s.pcs[t], s.results[t]);
      assert ThreadOk(job, t, Apply(job, s, a).pcs[t], Apply(job, s, a).results[t]);
    }
  }

  function Slots(job: Job): seq<Slot>
    requires Runs(job)
  {
    seq(job.threadCount, t requires 0 <= t < job.threadCount => FinalSlot(job, t))
  }

  /** The WaitGroup's counter is at all times the number of threads that are not finished, and when the runner
      returns every slot holds its thread's verdict: the results do not depend on the schedule. */
  lemma ReturnsTheVerdicts(job: Job, run: seq<Action>)
    requires Runs(job) && Legal(job, Init(job), run)
    ensures var s := Exec(job, Init(job), run);
      && s.pending == Sum(s.pcs, Unfinished)
      && (s.returned ==> s.results == Slots(job) && Unset !in s.results)
  {
    InitInv(job);
    RunKeepsInv(job, Init(job), run);
    var s := Exec(job, Init(job), run);
    if s.returned {
      AllFinished(s.pcs);
      forall t | 0 <= t < |s.results|
        ensures s.results[t] == Slots(job)[t] != Unset
      {
        assert ThreadOk(job, t, s.pcs[t], s.results[t]);
      }
    }
  }

  /** What the results say about the answers: after the return every slot reads success exactly if every thread got
      a status from 200 to 299 for each request of its share, and error otherwise. */
  lemma SuccessIffEveryStatusIs2xx(job: Job, run: seq<Action>)
    requires Runs(job) && Legal(job, Init(job), run) && Exec(job, Init(job), run).returned
    ensures var results := Exec(job, Init(job), run).results;
      && |results| == job.threadCount
      && ((forall t :: 0 <= t < |results| ==> results[t] == Success) <==>
           forall t: nat, i: nat | t < job.threadCount && i < job.requestCount / job.threadCount ::
             job.answer(t, i).Status? && 200 <= job.answer(t, i).code <= 299)
      && Unset !in results
  {
    ReturnsTheVerdicts(job, run);
    var results := Exec(job, Init(job), run).results;
    assert forall t :: 0 <= t < |results| ==> results[t] == FinalSlot(job, t);
    if forall t :: 0 <= t < |results| ==> results[t] == Success {
      forall t: nat, i: nat | t < job.threadCount && i < job.requestCount / job.threadCount
        ensures job.answer(t, i).Status? && 200 <= job.answer(t, i).code <= 299
      {
        assert results[t] == Success;
        SlotByStatus(job, t);
      }
    }
    if forall t: nat, i: nat | t < job.threadCount && i < job.requestCount / job.threadCount ::
         job.answer(t, i).Status? && 200 <= job.answer(t, i).code <= 299 {
      forall t | 0 <= t < |results|
        ensures results[t] == Success
      {
        SlotByStatus(job, t);
      }
    }
  }

  lemma SlotByStatus(job: Job, t: nat)
    requires Runs(job)
    ensures FinalSlot(job, t) == Success <==> forall i: nat | i < job.requestCount / job.threadCount ::
              job.answer(t, i).Status? && 200 <= job.answer(t, i).code <= 299
  {
    QuotaIsShare(job);
    assert forall i: nat | i < Quota(job) ::
      Expected(job.answer(t, i)) <==> job.answer(t, i).Status? && 200 <= job.answer(t, i).code <= 299;
  }

  lemma QuotaIsShare(job: Job)
    requires Runs(job)
    ensures Quota(job) == if job.requestCount < 0 then 0 else job.requestCount / job.threadCount
    ensures job.requestCount < 0 ==> job.requestCount / job.threadCount < 0
  {
  }

  lemma ShareOfAll(job: Job)
    requires Runs(job) && job.requestCount >= 0
    ensures job.threadCount * Quota(job) == job.requestCount
  {
  }

  /** A thread sends at most its quota, and all of its requests succeed exactly when it got so many. */
  lemma ThreadSends(job: Job, t: nat, pc: Pc, slot: Slot)
    requires Runs(job) && ThreadOk(job, t, pc, slot)
    ensures Good(pc) <= Sent(pc) <= Quota(job)
    ensures pc.Finished? ==> (slot == Success <==> Good(pc) == Quota(job))
  {
    if pc.Written? || pc.Finished? {
      var good := GoodRequests(job, t, 0);
      if AllExpected(job, t, Quota(job)) {
        GoodRequestsSkip(job, t, Quota(job));
      }
    }
  }

  /** At no time were more than requestCount requests sent, and after the return every slot reads success
      exactly when all requestCount requests were sent and answered as expected. */
  lemma SuccessIffAllSentAndExpected(job: Job, run: seq<Action>)
    requires Runs(job) && job.requestCount >= 0 && Legal(job, Init(job), run)
    ensures var s := Exec(job, Init(job), run);
      && s.expected <= s.sent <= job.requestCount
      && (s.returned ==>
            ((forall t :: 0 <= t < |s.results| ==> s.results[t] == Success)
             <==> s.sent == s.expected == job.requestCount))
  {
    InitInv(job);
    RunKeepsInv(job, Init(job), run);
    var s := Exec(job, Init(job), run);
    forall t | 0 <= t < |s.pcs|
      ensures Good(s.pcs[t]) <= Sent(s.pcs[t]) <= Quota(job)
      ensures s.pcs[t].Finished? ==> (s.results[t] == Success <==> Good(s.pcs[t]) == Quota(job))
    {
      ThreadSends(job, t, s.pcs[t], s.results[t]);
    }
    SumLeq(s.pcs, Good, Sent);
    SumBound(s.pcs, Sent, Quota(job));
    SumBound(s.pcs, Good, Quota(job));
    ShareOfAll(job);
    if s.returned {
      AllFinished(s.pcs);
    }
  }

  /** With a negative count that divides evenly nothing is sent and success is reported. */
  lemma NegativeCountSucceeds(job: Job, run: seq<Action>)
    requires Runs(job) && job.requestCount < 0 && Legal(job, Init(job), run)
    requires Exec(job, Init(job), run).returned
    ensures var s := Exec(job, Init(job), run);
      s.sent == 0 && forall t :: 0 <= t < |s.results| ==> s.results[t] == Success
  {
    InitInv(job);
    RunKeepsInv(job, Init(job), run);
    ReturnsTheVerdicts(job, run);
    var s := Exec(job, Init(job), run);
    forall t | 0 <= t < |s.pcs|
      ensures Sent(s.pcs[t]) <= 0
    {
      ThreadSends(job, t, s.pcs[t], s.results[t]);
    }
    SumBound(s.pcs, Sent, 0);
  }

  // ---------- The runner comes to its end ----------

  /** The steps a thread still has to take, at most. */
  function Work(quota: nat, pc: Pc): nat {
    match pc
    case Idle => quota + 3
    case Sending(good) => if good <= quota then quota - good + 2 else 2
    case Failing(_) => 2
    case Written(_, _) => 1
    case Finished(_, _) => 0
  }

  function WorkOf(quota: nat): Pc -> nat {
    pc => Work(quota, pc)
  }

  function StepsLeft(job: Job, s: State): nat
    requires Runs(job)
  {
    Sum(s.pcs, WorkOf(Quota(job))) + if s.returned then 0 else 1
  }

  lemma WorkShrinks(job: Job, s: State, a: Action)
    requires Runs(job) && Enabled(job, s, a) && !a.Spawn? && !a.Return?
    ensures Work(Quota(job), Apply(job, s, a).pcs[a.t]) < Work(Quota(job), s.pcs[a.t])
  {
  }

  lemma StepIsProgress(job: Job, s: State, a: Action)
    requires Runs(job) && Inv(job, s) && Enabled(job, s, a)
    ensures StepsLeft(job, Apply(job, s, a)) < StepsLeft(job, s)
  {
    var s', work := Apply(job, s, a), WorkOf(Quota(job));
    if a.Spawn? {
      SumUpdate(s.pcs, s.launched, Sending(0), work);
    } else if !a.Return? {
      WorkShrinks(job, s, a);
      SumUpdate(s.pcs, a.t, s'.pcs[a.t], work);
    }
  }

  /** No deadlock: until the runner has returned, some step is possible. */
  lemma SomeStepPossible(job: Job, s: State) returns (a: Action)
    requires Runs(job) && Inv(job, s) && !s.returned
    ensures Enabled(job, s, a)
  {
    if s.launched < |s.pcs| {
      return Spawn;
    }
    if s.pending == 0 {
      return Return;
    }
    if t: nat :| t < |s.pcs| && !s.pcs[t].Finished? {
      return if s.pcs[t].Written? then Done(t) else if Enabled(job, s, Request(t)) then Request(t) else Write(t);
    } else {
      SumOfEqual(s.pcs, Unfinished, 0);
      assert false;
    }
  }

  /** Every schedule is bounded, and one that cannot go on has returned. */
  lemma {:induction false} EveryScheduleReturns(job: Job, s: State, run: seq<Action>)
    requires Runs(job) && Inv(job, s) && Legal(job, s, run)
    ensures |run| <= StepsLeft(job, s)
    ensures (forall a :: !Enabled(job, Exec(job, s, run), a)) ==> Exec(job, s, run).returned
    decreases |run|
  {
    if run != [] {
      StepKeepsInv(job, s, run[0]);
      StepIsProgress(job, s, run[0]);
      EveryScheduleReturns(job, Apply(job, s, run[0]), run[1..]);
    } else if !s.returned {
      var a := SomeStepPossible(job, s);
    }
  }
}
