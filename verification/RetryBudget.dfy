/** One attempt at a request, and chains of attempts: every attempt is counted once and no
    chain outruns the retry budget. */
module RetryBudget {
  import opened Seqs

  /** Outcome of each call out of the worker, in the order in which an attempt makes them. */
  datatype Script = Script(
    middleware: RequestStage,
    hook: Hook,
    robotsAllow: bool,
    download: Download,
    responseStage: ResponseStage,
    status: Status,
    validation: Validation,
    callbackKnown: bool,
    callback: Callback,
    /** What the exception hook adds to the retry count. */
    exceptionHook: int,
    /** Handing the retry to the request buffer may raise, after the buffer has taken it. */
    bufferRaises: bool)

  /** Request middleware: raises, lets the request go on, or answers in place of a download.
      `delta` is what it changes in the retry count of the request that goes on. */
  datatype RequestStage = StageRaises | GoesOn(delta: int) | Answers

  /** The download hook, which may put another request in the place of this one. */
  datatype Hook = HookRaises | HookGoesOn(delta: int)

  datatype Download = Downloaded | TypeRejected | DownloadError(tooLarge: bool) | DownloadCrash

  datatype ResponseStage = KeepsResponse | AsksRetry | ResponseCrash

  datatype Status = StatusOk | StatusRetry(tooLong: bool) | StatusFail

  datatype Validation = Accepts | Refuses | ValidationFails | ValidationGivesUp | ValidationCrash

  datatype Callback = Returns | GivesUp | CallbackRaises(tooLarge: bool)

  class Request {
    var retryTimes: int
    var filterRepeat: bool
    const autoRequest: bool

    constructor (autoRequest: bool)
      ensures retryTimes == 0 && filterRepeat && this.autoRequest == autoRequest
    {
      retryTimes, filterRepeat, this.autoRequest := 0, true, autoRequest;
    }
  }

  /** How an attempt ends. A retry passes on the count its successor starts with. */
  datatype End =
    | Succeeded
    | Failed
    | Dropped
    | Retried(next: int, replaced: bool)
    | Uncaught

  datatype Stats = Stats(ok: nat, failed: nat, dropped: nat, retry: nat)

  function Total(s: Stats): nat {
    s.ok + s.failed + s.dropped + s.retry
  }

  function Counted(s: Stats, end: End): Stats {
    match end
    case Succeeded => s.(ok := s.ok + 1)
    case Failed => s.(failed := s.failed + 1)
    case Dropped => s.(dropped := s.dropped + 1)
    case Retried(_, _) => s.(retry := s.retry + 1)
    case Uncaught => s
  }

  /** The counters after attempts that came to `ends`. */
  function CountedAll(s: Stats, ends: seq<End>): Stats {
    if ends == [] then s else Counted(CountedAll(s, ends[..|ends| - 1]), ends[|ends| - 1])
  }

  /** How many of the ends are of the kind a counter stands for. */
  function Kind(ends: seq<End>, of: End -> bool): nat {
    if ends == [] then 0 else Kind(ends[..|ends| - 1], of) + if of(ends[|ends| - 1]) then 1 else 0
  }

  /** Each counter counts the attempts of its own kind. */
  lemma {:induction false} CountersByKind(s: Stats, ends: seq<End>)
    ensures
      var t := CountedAll(s, ends);
      && t.ok == s.ok + Kind(ends, (e: End) => e.Succeeded?)
      && t.failed == s.failed + Kind(ends, (e: End) => e.Failed?)
      && t.dropped == s.dropped + Kind(ends, (e: End) => e.Dropped?)
      && t.retry == s.retry + Kind(ends, (e: End) => e.Retried?)
  {
    if ends != [] {
      CountersByKind(s, ends[..|ends| - 1]);
    }
  }

  /** One attempt a worker makes: the request, the one a middleware may ask for instead, and
      how the calls go. */
  datatype Job = Job(request: Request, retry: Request, script: Script)

  // ---------------------------------------------------------------- what an attempt comes to

  /** The retry count once the stages before the download had their say. */
  function Used(s: Script, start: int): int {
    if s.middleware.StageRaises? then start
    else
      var passed := start + (if s.middleware.GoesOn? then s.middleware.delta else 0);
      if s.hook.HookRaises? then passed else passed + s.hook.delta
  }

  /** A failure worth another try gets one while the budget lasts. */
  function Again(used: int, max: int, tooLarge: bool, exceptionHook: int): End {
    if tooLarge || used >= max then Failed else Retried(used + 1 + exceptionHook, false)
  }

  function EndOf(s: Script, auto: bool, start: int, max: int): End {
    var used := Used(s, start);
    if s.middleware.StageRaises? || s.hook.HookRaises? then Again(used, max, false, s.exceptionHook)
    else if s.middleware.Answers? then Answered(s, used, max)
    else Fetched(s, auto, used, max)
  }

  function Fetched(s: Script, auto: bool, used: int, max: int): End {
    if !auto then Parsed(s, used, max)
    else if !s.robotsAllow then Dropped
    else match s.download
      case Downloaded => Answered(s, used, max)
      case TypeRejected => Dropped
      case DownloadError(tooLarge) => Again(used, max, tooLarge, s.exceptionHook)
      case DownloadCrash => Uncaught
  }

  function Answered(s: Script, used: int, max: int): End {
    match s.responseStage
    case ResponseCrash => Uncaught
    case AsksRetry => if used >= max then Failed else Retried(used + 1, true)
    case KeepsResponse =>
      match s.status
      case StatusRetry(tooLong) => if tooLong then Failed else Again(used, max, false, s.exceptionHook)
      case StatusFail => Failed
      case StatusOk =>
        match s.validation
        case ValidationFails => Again(used, max, false, s.exceptionHook)
        case Accepts => Parsed(s, used, max)
        case ValidationCrash => Uncaught
        case _ => Dropped
  }

  function Parsed(s: Script, used: int, max: int): End {
    if !s.callbackKnown then Uncaught
    else match s.callback
      case Returns => Succeeded
      case GivesUp => Dropped
      case CallbackRaises(tooLarge) => Again(used, max, tooLarge, s.exceptionHook)
  }

  /** A response is there to be checked: from the middleware, or downloaded. */
  predicate HasResponse(s: Script, auto: bool) {
    s.middleware.Answers? || auto
  }

  /** A download that is needed is allowed and made, and a response passes every check. */
  predicate CallbackReached(s: Script, auto: bool) {
    && (s.middleware.GoesOn? && auto ==> s.robotsAllow && s.download.Downloaded?)
    && (HasResponse(s, auto) ==> s.responseStage.KeepsResponse? && s.status.StatusOk? && s.validation.Accepts?)
    && s.callbackKnown
  }

  /** An attempt succeeds if and only if no stage raises, a download that is needed is allowed and
      made, a response passes middleware, status and validation, and the callback returns. */
  lemma SucceedsIff(s: Script, auto: bool, start: int, max: int)
    ensures EndOf(s, auto, start, max) == Succeeded <==>
            !s.middleware.StageRaises? && !s.hook.HookRaises? && CallbackReached(s, auto) && s.callback.Returns?
  {
  }

  /** An attempt that got as far as its download and found the response too large is never
      retried, however much budget is left; nor is a callback that raises for the same reason. */
  lemma TooLargeIsNeverRetried(s: Script, auto: bool, start: int, max: int)
    requires !s.middleware.StageRaises? && !s.hook.HookRaises?
    ensures s.middleware.GoesOn? && auto && s.robotsAllow && s.download == DownloadError(true) ==>
              EndOf(s, auto, start, max) == Failed
    ensures s.callback == CallbackRaises(true) && CallbackReached(s, auto) ==> EndOf(s, auto, start, max) == Failed
  {
  }

  /** Giving up on purpose is a drop, not a failure: robots, content type, validation, callback. */
  lemma GivingUpIsDropped(s: Script, start: int, max: int)
    requires s.middleware.GoesOn? && s.hook.HookGoesOn?
    ensures !s.robotsAllow ==> EndOf(s, true, start, max) == Dropped
    ensures s.robotsAllow && s.download.TypeRejected? ==> EndOf(s, true, start, max) == Dropped
    ensures s.robotsAllow && s.download.Downloaded? && s.responseStage.KeepsResponse? && s.status.StatusOk? ==>
              && (s.validation.Refuses? || s.validation.ValidationGivesUp? ==> EndOf(s, true, start, max) == Dropped)
              && (s.validation.Accepts? && s.callbackKnown && s.callback.GivesUp?
                  ==> EndOf(s, true, start, max) == Dropped)
  {
  }

  // ---------------------------------------------------------------- the worker

  class ParserWorker {
    const maxRetry: int
    var stats: Stats
    var robotsDropped: nat
    var typeDropped: nat
    var parseErrors: nat
    /** Requests handed back to the request buffer, with the counts they carried. */
    var requeued: seq<(Request, int)>

    constructor (maxRetry: int)
      ensures this.maxRetry == maxRetry && stats == Stats(0, 0, 0, 0) && requeued == []
    {
      this.maxRetry, stats := maxRetry, Stats(0, 0, 0, 0);
      robotsDropped, typeDropped, parseErrors, requeued := 0, 0, 0, [];
    }

    /** What an attempt that comes to `end` leaves behind: one more in the matching counter, an
        exception or none, and for a retry the request `r` handed back, past the filter. */
    twostate predicate Ended(end: End, s: Script, r: Request, raised: bool)
      reads this, r
    {
      && stats == Counted(old(stats), end)
      && raised == (end.Uncaught? || (end.Retried? && s.bufferRaises))
      && requeued == old(requeued) + (if end.Retried? then [(r, end.next)] else [])
      && (end.Retried? ==> r.retryTimes == end.next && !r.filterRepeat)
    }

    method Fail()
      modifies this`stats
      ensures stats == Counted(old(stats), Failed)
    {
      stats := stats.(failed := stats.failed + 1);
    }

    method Drop()
      modifies this`stats
      ensures stats == Counted(old(stats), Dropped)
    {
      stats := stats.(dropped := stats.dropped + 1);
    }

    method RetryOrFail(request: Request, tooLarge: bool, s: Script) returns (raised: bool)
      modifies this`stats, this`requeued, request
      ensures
        var end := Again(old(request.retryTimes), maxRetry, tooLarge, s.exceptionHook);
        Ended(end, s, request, raised)
    {
      if tooLarge || request.retryTimes >= maxRetry {
        Fail();
        return false;
      }
      request.retryTimes := request.retryTimes + 1;
      stats := stats.(retry := stats.retry + 1);
      request.retryTimes := request.retryTimes + s.exceptionHook;
      request.filterRepeat := false;
      requeued := requeued + [(request, request.retryTimes)];
      return s.bufferRaises;
    }

    /** The budget comes from the request that was answered, not from the one that replaces it. */
    method RetryReplacement(request: Request, retry: Request, s: Script) returns (raised: bool)
      modifies this`stats, this`requeued, retry
      ensures
        var end := if old(request.retryTimes) >= maxRetry then Failed else Retried(old(request.retryTimes) + 1, true);
        Ended(end, s, retry, raised)
    {
      if request.retryTimes >= maxRetry {
        Fail();
        return false;
      }
      retry.retryTimes := request.retryTimes + 1;
      retry.filterRepeat := false;
      stats := stats.(retry := stats.retry + 1);
      requeued := requeued + [(retry, retry.retryTimes)];
      return s.bufferRaises;
    }

    /** One attempt. `retry` is the request a response middleware may ask for instead. */
    method Process(request: Request, retry: Request, s: Script) returns (raised: bool)
      modifies this, request, retry
      ensures
        var end := EndOf(s, request.autoRequest, old(request.retryTimes), maxRetry);
        Ended(end, s, if end.Retried? && end.replaced then retry else request, raised)
    {
      hide Counted, Answered, Fetched;
      match s.middleware {
        case StageRaises =>
          raised := RetryOrFail(request, false, s);
          return;
        case Answers =>
        case GoesOn(delta) => request.retryTimes := request.retryTimes + delta;
      }
      if s.hook.HookRaises? {
        raised := RetryOrFail(request, false, s);
        return;
      }
      request.retryTimes := request.retryTimes + s.hook.delta;
      if s.middleware.Answers? {
        raised := Deliver(request, retry, s);
      } else {
        raised := Fetch(request, retry, s);
      }
    }

    /** From the download on. */
    method Fetch(request: Request, retry: Request, s: Script) returns (raised: bool)
      modifies this, request, retry
      ensures
        var end := Fetched(s, request.autoRequest, old(request.retryTimes), maxRetry);
        Ended(end, s, if end.Retried? && end.replaced then retry else request, raised)
    {
      hide Answered;
      if !request.autoRequest {
        raised := Dispatch(request, s);
        return;
      }
      if !s.robotsAllow {
        robotsDropped := robotsDropped + 1;
        Drop();
        return false;
      }
      match s.download
      case TypeRejected =>
        typeDropped := typeDropped + 1;
        Drop();
        return false;
      case DownloadError(tooLarge) => raised := RetryOrFail(request, tooLarge, s);
      case DownloadCrash => return true;
      case Downloaded => raised := Deliver(request, retry, s);
    }

    /** From the response on. */
    method Deliver(request: Request, retry: Request, s: Script) returns (raised: bool)
      modifies this, request, retry
      ensures
        var end := Answered(s, old(request.retryTimes), maxRetry);
        Ended(end, s, if end.Retried? && end.replaced then retry else request, raised)
    {
      if s.responseStage.ResponseCrash? {
        return true;
      }
      if s.responseStage.AsksRetry? {
        raised := RetryReplacement(request, retry, s);
        return;
      }
      var go;
      go, raised := CheckStatus(request, s);
      if !go {
        return;
      }
      go, raised := Validate(request, s);
      if !go {
        return;
      }
      raised := Dispatch(request, s);
    }

    method CheckStatus(request: Request, s: Script) returns (go: bool, raised: bool)
      modifies this`stats, this`requeued, request
      ensures go <==> s.status.StatusOk?
      ensures go ==>
                && !raised && stats == old(stats) && requeued == old(requeued)
                && request.retryTimes == old(request.retryTimes)
      ensures !go ==>
        var end :=
          if s.status == StatusRetry(false) then Again(old(request.retryTimes), maxRetry, false, s.exceptionHook)
          else Failed;
        Ended(end, s, request, raised)
    {
      match s.status
      case StatusOk => return true, false;
      case StatusFail =>
        Fail();
        return false, false;
      case StatusRetry(tooLong) =>
        if tooLong {
          Fail();
          return false, false;
        }
        raised := RetryOrFail(request, false, s);
        go := false;
    }

    method Validate(request: Request, s: Script) returns (go: bool, raised: bool)
      modifies this`stats, this`requeued, request
      ensures go <==> s.validation.Accepts?
      ensures go ==>
                && !raised && stats == old(stats) && requeued == old(requeued)
                && request.retryTimes == old(request.retryTimes)
      ensures !go ==>
        var end :=
          if s.validation.ValidationFails? then Again(old(request.retryTimes), maxRetry, false, s.exceptionHook)
          else if s.validation.ValidationCrash? then Uncaught else Dropped;
        Ended(end, s, request, raised)
    {
      match s.validation
      case Accepts => return true, false;
      case ValidationCrash => return false, true;
      case ValidationFails =>
        raised := RetryOrFail(request, false, s);
        go := false;
      case _ =>
        Drop();
        return false, false;
    }

    method Dispatch(request: Request, s: Script) returns (raised: bool)
      modifies this`stats, this`requeued, this`parseErrors, request
      ensures
        var end := Parsed(s, old(request.retryTimes), maxRetry);
        Ended(end, s, request, raised)
    {
      if !s.callbackKnown {
        return true;
      }
      match s.callback
      case Returns =>
        stats := stats.(ok := stats.ok + 1);
        return false;
      case GivesUp =>
        Drop();
        return false;
      case CallbackRaises(tooLarge) =>
        parseErrors := parseErrors + 1;
        raised := RetryOrFail(request, tooLarge, s);
    }

    /** A history of attempts. Each one is in exactly one of the four counters, except those
        that raise without handing back a retry. */
    method Work(jobs: seq<Job>) returns (uncaught: nat, ghost starts: seq<int>, ghost ends: seq<End>)
      modifies this, set j | j in jobs :: j.request, set j | j in jobs :: j.retry
      ensures Total(stats) + uncaught == Total(old(stats)) + |jobs|
      ensures |starts| == |ends| == |jobs| && stats == CountedAll(old(stats), ends)
      ensures forall i | 0 <= i < |jobs| ::
                ends[i] == EndOf(jobs[i].script, jobs[i].request.autoRequest, starts[i], maxRetry)
      ensures |requeued| == |old(requeued)| + stats.retry - old(stats).retry
    {
      hide EndOf;
      uncaught, starts, ends := 0, [], [];
      for i := 0 to |jobs|
        invariant Total(stats) + uncaught == Total(old(stats)) + i
        invariant |starts| == |ends| == i && stats == CountedAll(old(stats), ends)
        invariant forall k | 0 <= k < i ::
                    ends[k] == EndOf(jobs[k].script, jobs[k].request.autoRequest, starts[k], maxRetry)
        invariant |requeued| == |old(requeued)| + stats.retry - old(stats).retry
      {
        var job, before := jobs[i], |requeued|;
        assert job in jobs;
        ghost var start := job.request.retryTimes;
        ghost var end := EndOf(job.script, job.request.autoRequest, start, maxRetry);
        var raised := Process(job.request, job.retry, job.script);
        if raised && |requeued| == before {
          uncaught := uncaught + 1;
        }
        assert (ends + [end])[..i] == ends;
        starts, ends := starts + [start], ends + [end];
      }
    }
  }

  // ---------------------------------------------------------------- chains of attempts

  /** No stage hands back a retry count that is lower than the one it got. */
  predicate Preserving(s: Script) {
    && (s.middleware.GoesOn? ==> s.middleware.delta >= 0)
    && (s.hook.HookGoesOn? ==> s.hook.delta >= 0)
    && s.exceptionHook >= 0
  }

  /** One attempt: the count the request came with, and how the calls went. */
  datatype Attempt = Attempt(start: int, auto: bool, script: Script)

  function Outcome(a: Attempt, max: int): End {
    EndOf(a.script, a.auto, a.start, max)
  }

  /** Each attempt is the retry of the one before it. */
  ghost predicate Chain(c: seq<Attempt>, max: int) {
    forall i | 0 <= i < |c| - 1 :: Outcome(c[i], max).Retried? && Outcome(c[i], max).next == c[i + 1].start
  }

  ghost predicate AllPreserving(c: seq<Attempt>) {
    forall i | 0 <= i < |c| :: Preserving(c[i].script)
  }

  /** While budget is left, a failed download, a retryable status, a failed validation and a
      raising callback are all retried with one more on the count. */
  lemma FailureIsRetried(s: Script, start: int, max: int)
    requires s.middleware.GoesOn? && s.hook.HookGoesOn? && s.robotsAllow
    requires start + s.middleware.delta + s.hook.delta < max
    requires
      || s.download == DownloadError(false)
      || (s.download.Downloaded? && s.responseStage.KeepsResponse? &&
          (|| s.status == StatusRetry(false)
           || (s.status.StatusOk? && s.validation.ValidationFails?)
           || (s.status.StatusOk? && s.validation.Accepts? && s.callbackKnown && s.callback == CallbackRaises(false))))
    ensures EndOf(s, true, start, max)
         == Retried(start + s.middleware.delta + s.hook.delta + 1 + s.exceptionHook, false)
  {
  }

  /** A response that asks for another request hands on the count plus one, and fails when the
      budget is spent; a final status, or one that asks to wait too long, fails at once. */
  lemma ResponsesDecide(s: Script, start: int, max: int)
    requires s.middleware.Answers? && s.hook.HookGoesOn?
    ensures s.responseStage.AsksRetry? ==>
              EndOf(s, true, start, max)
              == if start + s.hook.delta < max then Retried(start + s.hook.delta + 1, true) else Failed
    ensures s.responseStage.KeepsResponse? && (s.status.StatusFail? || s.status == StatusRetry(true)) ==>
              EndOf(s, true, start, max) == Failed
    ensures s.responseStage.ResponseCrash? ==> EndOf(s, true, start, max) == Uncaught
  {
  }

  /** A retry starts below the limit and leaves less of the budget. */
  lemma RetrySpendsBudget(a: Attempt, max: int)
    requires Preserving(a.script) && Outcome(a, max).Retried?
    ensures a.start < max && Outcome(a, max).next > a.start
  {
  }

  lemma {:induction false} StartsGrow(c: seq<Attempt>, max: int, i: nat)
    requires Chain(c, max) && AllPreserving(c) && i < |c|
    ensures c[i].start >= c[0].start + i
  {
    hide EndOf;
    if i > 0 {
      StartsGrow(c, max, i - 1);
      assert Preserving(c[i - 1].script);
      RetrySpendsBudget(c[i - 1], max);
    }
  }

  /** A chain that starts with a fresh request is attempted at most one time more than the
      retry limit; a chain that starts with part of the budget used gets the rest of it. */
  lemma ChainIsBounded(c: seq<Attempt>, max: int)
    requires c != [] && Chain(c, max) && AllPreserving(c)
    ensures |c| <= 1 + Max(0, max - c[0].start)
  {
    hide EndOf;
    if |c| > 1 {
      var k := |c| - 2;
      StartsGrow(c, max, k);
      assert Preserving(c[k].script);
      RetrySpendsBudget(c[k], max);
    }
  }

  function TimesOut(start: int): Attempt {
    Attempt(start, true, Script(GoesOn(0), HookGoesOn(0), true, DownloadError(false), KeepsResponse, StatusOk,
        Accepts, true, Returns, 0, false))
  }

  /** The bound is reached: a request whose downloads keep failing uses the whole budget. */
  lemma ChainUsesWholeBudget(max: nat)
    ensures
      var c := seq(max + 1, i => TimesOut(i));
      Chain(c, max) && AllPreserving(c) && c[0].start == 0 && Outcome(c[max], max) == Failed
  {
  }

  /** Every stage but the exception hook leaves the count alone; the hook adds `delta`. */
  predicate Adds(s: Script, delta: int) {
    && (s.middleware.GoesOn? ==> s.middleware.delta == 0)
    && (s.hook.HookGoesOn? ==> s.hook.delta == 0)
    && s.exceptionHook == delta
  }

  ghost predicate AllAdd(c: seq<Attempt>, delta: int) {
    forall i | 0 <= i < |c| :: Adds(c[i].script, delta)
  }

  /** Every chain of a fresh request stays within the budget. */
  ghost predicate StaysInBudget(delta: int, max: nat) {
    forall c: seq<Attempt> | c != [] && Chain(c, max) && AllAdd(c, delta) && c[0].start == 0 :: |c| <= 1 + max
  }

  /** A download error after which the exception hook adds `delta` to the count. */
  function Adjusted(start: int, delta: int): Attempt {
    TimesOut(start).(script := TimesOut(start).script.(exceptionHook := delta))
  }

  lemma StartsNotPositive(i: nat, step: int)
    requires step <= 0
    ensures i * step <= 0
  {
  }

  /** A hook that takes the retry back from the count makes chains of any length. */
  lemma LoweringHookNeverEnds(delta: int, max: nat, n: nat) returns (c: seq<Attempt>)
    requires delta < 0 && max >= 1
    ensures |c| == n && Chain(c, max) && AllAdd(c, delta) && (n > 0 ==> c[0].start == 0)
  {
    c := seq(n, i => Adjusted(i * (1 + delta), delta));
    forall i | 0 <= i < n - 1 ensures Outcome(c[i], max).Retried? && Outcome(c[i], max).next == c[i + 1].start {
      StartsNotPositive(i, 1 + delta);
      assert (i + 1) * (1 + delta) == i * (1 + delta) + 1 + delta;
    }
  }

  /** With the other stages neutral, chains stay within one attempt more than the retry limit if
      and only if the exception hook does not lower the count. */
  lemma StaysInBudgetIff(delta: int, max: nat)
    requires max >= 1
    ensures StaysInBudget(delta, max) <==> delta >= 0
  {
    hide EndOf, TimesOut;
    if delta >= 0 {
      forall c: seq<Attempt> | c != [] && Chain(c, max) && AllAdd(c, delta) && c[0].start == 0 ensures |c| <= 1 + max {
        ChainIsBounded(c, max);
      }
    } else {
      var c := LoweringHookNeverEnds(delta, max, max + 2);
      assert |c| > 1 + max;
    }
  }
}
