/**
 The published system time: one atomic cell that concurrent callers raise with a
 weak compare-exchange.  A step is one atomic access of one caller.
 */
module ClockCell {
  import opened Arithmetic
  import opened Wrappers

  type Caller = nat

  const I64_MAX := 0x7FFF_FFFF_FFFF_FFFF

  /** What a call reads before it publishes: the time since the epoch by the fine
      clock, if that answers, and by the coarse one, and the time since the start. */
  datatype Reading = Reading(fine: Option<nat>, coarse: nat, uptime: nat) {
    function Elapsed(): nat { if fine.Some? then fine.value else coarse }
  }

  /** system_time_nanoseconds: the elapsed time added to the epoch with saturation. */
  function Candidate(epoch: Option<nat>, r: Reading): int {
    if epoch.None? then r.uptime
    else if r.Elapsed() == I64_MAX || epoch.value > I64_MAX - r.Elapsed() then I64_MAX
    else epoch.value + r.Elapsed()
  }

  /** publish_system_time: `previous` is the caller's last view of the cell. */
  datatype Pc =
    | Loading
    | Looping(previous: int)
    | Returned(result: int)

  /** One call.  `floor` is history: the largest result returned by anybody before
      this call began. */
  datatype Call = Call(reading: Reading, candidate: int, floor: int, pc: Pc)

  /** `published` and `returned` are history: the candidates written to the cell
      and the results returned so far. */
  datatype State = State(epoch: Option<nat>, cell: int, calls: map<Caller, Call>,
                         published: seq<int>, returned: seq<int>)

  datatype Event =
    | Begin(c: Caller, reading: Reading)
    | Load(c: Caller)
    | Exchange(c: Caller)              // succeeds
    | ExchangeFails(c: Caller)         // the cell has moved on, or spuriously
    | Leave(c: Caller)                 // the loop condition is false

  function Init(epoch: Option<nat>): State { State(epoch, 0, map[], [], []) }

  function Largest(s: seq<int>, least: int): (m: int)
    ensures m >= least && forall i :: 0 <= i < |s| ==> s[i] <= m
    ensures m == least || m in s
  {
    if s == [] then least
    else
      var m := Largest(s[..|s| - 1], least);
      if s[|s| - 1] > m then s[|s| - 1] else m
  }

  predicate Enabled(s: State, e: Event) {
    match e
    case Begin(c, _) => c !in s.calls
    case Load(c) => c in s.calls && s.calls[c].pc.Loading?
    case Exchange(c) =>
      c in s.calls && s.calls[c].pc.Looping? && s.calls[c].candidate > s.calls[c].pc.previous == s.cell
    case ExchangeFails(c) =>
      c in s.calls && s.calls[c].pc.Looping? && s.calls[c].candidate > s.calls[c].pc.previous
    case Leave(c) => c in s.calls && s.calls[c].pc.Looping? && s.calls[c].candidate <= s.calls[c].pc.previous
  }

  function Finish(s: State, c: Caller, result: int): State
    requires c in s.calls
  {
    s.(calls := s.calls[c := s.calls[c].(pc := Returned(result))], returned := s.returned + [result])
  }

  function Apply(s: State, e: Event): State
    requires Enabled(s, e)
  {
    match e
    case Begin(c, reading) =>
      s.(calls := s.calls[c := Call(reading, Candidate(s.epoch, reading), Largest(s.returned, 0), Loading)])
    case Load(c) => s.(calls := s.calls[c := s.calls[c].(pc := Looping(s.cell))])
    case Exchange(c) =>
      var v := s.calls[c].candidate;
      Finish(s, c, v).(cell := v, published := s.published + [v])
    case ExchangeFails(c) => s.(calls := s.calls[c := s.calls[c].(pc := Looping(s.cell))])
    case Leave(c) =>
      var k := s.calls[c];
      Finish(s, c, if k.candidate > k.pc.previous then k.candidate else k.pc.previous)
  }

  ghost predicate CallOk(s: State, k: Call) {
    && k.floor <= s.cell && k.candidate == Candidate(s.epoch, k.reading)
    && (k.pc.Looping? ==> k.floor <= k.pc.previous <= s.cell)
    && (k.pc.Returned? ==> k.floor <= k.pc.result <= s.cell && k.candidate <= k.pc.result)
  }

  ghost predicate CellOk(s: State) {
    && s.cell == Largest(s.published, 0)
    && (forall i :: 0 <= i < |s.returned| ==> s.returned[i] <= s.cell)
    && (forall i, j :: 0 <= i < j < |s.published| ==> s.published[i] < s.published[j])
  }

  ghost predicate CallsOk(s: State) { forall c :: c in s.calls ==> CallOk(s, s.calls[c]) }

  ghost predicate Inv(s: State) { CellOk(s) && CallsOk(s) }

  ghost predicate Step(s: State, s': State) {
    exists e :: Enabled(s, e) && s' == Apply(s, e)
  }

  ghost predicate IsRun(run: seq<State>) {
    && run != [] && run[0] == Init(run[0].epoch)
    && forall i: nat {:trigger StepAt(run, i)} :: i < |run| - 1 ==> StepAt(run, i)
  }

  ghost predicate StepAt(run: seq<State>, i: nat) { i < |run| - 1 && Step(run[i], run[i + 1]) }

  lemma LargestOfExtended(s: seq<int>, v: int)
    requires v > Largest(s, 0)
    ensures Largest(s + [v], 0) == v
  {
    assert (s + [v])[..|s|] == s;
  }

  lemma StepKeepsCell(s: State, e: Event)
    requires CellOk(s) && Enabled(s, e) && (e.Leave? ==> CallOk(s, s.calls[e.c]))
    ensures CellOk(Apply(s, e)) && s.cell <= Apply(s, e).cell
  {
    if e.Exchange? {
      LargestOfExtended(s.published, s.calls[e.c].candidate);
    }
  }

  /** A call that is still right about the cell stays right when the cell grows. */
  lemma CallsSurvive(s: State, s': State, c: Caller)
    requires CallsOk(s) && s.cell <= s'.cell && c in s'.calls && CallOk(s', s'.calls[c])
    requires s'.calls == s.calls[c := s'.calls[c]] && s'.epoch == s.epoch
    ensures CallsOk(s')
  {
    forall d {:trigger s'.calls[d]} | d in s'.calls
      ensures CallOk(s', s'.calls[d])
    {
      assert d != c ==> d in s.calls && CallOk(s, s.calls[d]);
    }
  }

  lemma BeginKeepsCalls(s: State, c: Caller, reading: Reading)
    requires Inv(s) && Enabled(s, Begin(c, reading))
    ensures CallsOk(Apply(s, Begin(c, reading)))
  {
    CallsSurvive(s, Apply(s, Begin(c, reading)), c);
  }

  lemma LoadKeepsCalls(s: State, e: Event)
    requires Inv(s) && Enabled(s, e) && (e.Load? || e.ExchangeFails?)
    ensures CallsOk(Apply(s, e))
  {
    assert CallOk(s, s.calls[e.c]);
    CallsSurvive(s, Apply(s, e), e.c);
  }

  lemma FinishKeepsCalls(s: State, e: Event)
    requires Inv(s) && Enabled(s, e) && (e.Exchange? || e.Leave?)
    ensures CallsOk(Apply(s, e))
  {
    assert CallOk(s, s.calls[e.c]);
    CallsSurvive(s, Apply(s, e), e.c);
  }

  lemma StepKeepsInv(s: State, e: Event)
    requires Inv(s) && Enabled(s, e)
    ensures Inv(Apply(s, e)) && s.cell <= Apply(s, e).cell
  {
    assert e.Leave? ==> CallOk(s, s.calls[e.c]);
    StepKeepsCell(s, e);
    match e
    case Begin(c, reading) => BeginKeepsCalls(s, c, reading);
    case Load(_) => LoadKeepsCalls(s, e);
    case ExchangeFails(_) => LoadKeepsCalls(s, e);
    case Exchange(_) => FinishKeepsCalls(s, e);
    case Leave(_) => FinishKeepsCalls(s, e);
  }

  lemma {:induction false} RunInv(run: seq<State>, i: nat)
    requires IsRun(run) && i < |run|
    ensures Inv(run[i])
  {
    if i > 0 {
      RunInv(run, i - 1);
      assert StepAt(run, i - 1);
      var e :| Enabled(run[i - 1], e) && run[i] == Apply(run[i - 1], e);
      StepKeepsInv(run[i - 1], e);
    }
  }

  /** A call's history does not change once it is recorded, and results stay. */
  lemma {:induction false} HistoryIsStable(run: seq<State>, i: nat, j: nat, c: Caller)
    requires IsRun(run) && i <= j < |run| && c in run[i].calls
    ensures c in run[j].calls && run[j].calls[c].floor == run[i].calls[c].floor
    ensures run[j].calls[c].candidate == run[i].calls[c].candidate
    ensures run[i].calls[c].pc.Returned? ==> run[j].calls[c] == run[i].calls[c]
    decreases j - i
  {
    if i < j {
      HistoryIsStable(run, i, j - 1, c);
      assert StepAt(run, j - 1);
    }
  }

  /** Results of finished calls are in the history of results. */
  lemma {:induction false} ResultIsRecorded(run: seq<State>, i: nat, c: Caller)
    requires IsRun(run) && i < |run| && c in run[i].calls && run[i].calls[c].pc.Returned?
    ensures run[i].calls[c].pc.result in run[i].returned
    decreases i
  {
    assert i > 0;
    assert StepAt(run, i - 1);
    if c in run[i - 1].calls && run[i - 1].calls[c].pc.Returned? {
      ResultIsRecorded(run, i - 1, c);
    } else {
      assert run[i].calls[c].pc.result == run[i].returned[|run[i - 1].returned|];
    }
  }

  /** Each call returns at least its candidate, and the cell holds the largest
      value published so far. */
  lemma ResultCoversCandidate(run: seq<State>, i: nat, c: Caller)
    requires IsRun(run) && i < |run| && c in run[i].calls && run[i].calls[c].pc.Returned?
    ensures run[i].calls[c].candidate <= run[i].calls[c].pc.result <= run[i].cell
    ensures run[i].cell == Largest(run[i].published, 0)
  {
    RunInv(run, i);
  }

  /** Real-time order: a call that begins after another has returned does not
      return less, whatever candidates the two had. */
  lemma TimeNeverDecreases(run: seq<State>, i: nat, j: nat, a: Caller, b: Caller)
    requires IsRun(run) && i <= j < |run|
    requires a in run[i].calls && run[i].calls[a].pc.Returned? && b !in run[i].calls
    requires b in run[j].calls && run[j].calls[b].pc.Returned?
    ensures run[i].calls[a].pc.result <= run[j].calls[b].pc.result
  {
    FloorCoversEarlier(run, i, j, a, b);
    RunInv(run, j);
    assert CallOk(run[j], run[j].calls[b]);
  }

  /** The floor recorded at the start of b covers every result before it. */
  lemma {:induction false} FloorCoversEarlier(run: seq<State>, i: nat, j: nat, a: Caller, b: Caller)
    requires IsRun(run) && i <= j < |run|
    requires a in run[i].calls && run[i].calls[a].pc.Returned? && b !in run[i].calls && b in run[j].calls
    ensures run[i].calls[a].pc.result <= run[j].calls[b].floor
    decreases j - i
  {
    assert i < j;
    if b in run[j - 1].calls {
      FloorCoversEarlier(run, i, j - 1, a, b);
      HistoryIsStable(run, j - 1, j, b);
    } else {
      HistoryIsStable(run, i, j - 1, a);
      ResultIsRecorded(run, j - 1, a);
      assert StepAt(run, j - 1);
    }
  }

  // ----- How far the published time is from the true one

  lemma {:induction false} EpochStays(run: seq<State>, i: nat)
    requires IsRun(run) && i < |run|
    ensures run[i].epoch == run[0].epoch
  {
    if i > 0 {
      EpochStays(run, i - 1);
      assert StepAt(run, i - 1);
    }
  }

  /** No call has read a later time than this. */
  predicate Below(s: State, bound: int) { 0 <= bound && forall c :: c in s.calls ==> s.calls[c].candidate <= bound }

  /** The cell holds no time that nobody has read. */
  lemma {:induction false} NothingExceeds(run: seq<State>, i: nat, bound: int)
    requires IsRun(run) && i < |run| && Below(run[i], bound)
    ensures run[i].cell <= bound
  {
    if i > 0 {
      assert StepAt(run, i - 1);
      var s := run[i - 1];
      forall c | c in s.calls
        ensures s.calls[c].candidate <= bound
      {
        HistoryIsStable(run, i - 1, i, c);
      }
      NothingExceeds(run, i - 1, bound);
    }
  }

  /** The time x after the epoch. */
  function Saturated(epoch: nat, x: int): int { Min(epoch + x, I64_MAX) }

  /** Whichever clock answered, it was off by at most this. */
  predicate Near(r: Reading, now: nat, error: nat) { now - error <= r.Elapsed() <= now + error }

  /** Calls read their clocks no later than `latest`, each with at most this error. */
  ghost predicate AllNear(s: State, now: Caller -> nat, latest: nat, error: nat) {
    forall c :: c in s.calls ==> Near(s.calls[c].reading, now(c), error) && now(c) <= latest
  }

  /** Whichever clocks answer in whichever calls, a published time is not behind the
      true time of its own reading, nor ahead of the latest reading, by more than the
      error of the clocks. */
  lemma PublishedTimeIsNear(run: seq<State>, i: nat, c: Caller, now: Caller -> nat, latest: nat, error: nat)
    requires IsRun(run) && i < |run| && c in run[i].calls && run[i].calls[c].pc.Returned?
    requires run[i].epoch.Some? && AllNear(run[i], now, latest, error)
    ensures var epoch := run[i].epoch.value;
      Saturated(epoch, now(c) - error) <= run[i].calls[c].pc.result <= Saturated(epoch, latest + error)
  {
    RunInv(run, i);
    var s, bound := run[i], Saturated(run[i].epoch.value, latest + error);
    forall d | d in s.calls
      ensures s.calls[d].candidate <= bound
    {
      assert CallOk(s, s.calls[d]);
    }
    NothingExceeds(run, i, bound);
    assert CallOk(s, s.calls[c]);
  }

  /** When the fine clock answers one call and no longer a later one, the later result
      is not less than the earlier, although its own reading may be: it is at least
      what the coarse clock says, and ahead of the true time by at most the error. */
  lemma FallbackKeepsOrder(run: seq<State>, i: nat, j: nat, a: Caller, b: Caller, now: Caller -> nat, latest: nat,
                           error: nat)
    requires IsRun(run) && i <= j < |run|
    requires a in run[i].calls && run[i].calls[a].pc.Returned? && b !in run[i].calls
    requires b in run[j].calls && run[j].calls[b].pc.Returned?
    requires run[i].calls[a].reading.fine.Some? && run[j].calls[b].reading.fine.None?
    requires run[j].epoch.Some? && AllNear(run[j], now, latest, error)
    ensures var epoch, first, second := run[j].epoch.value, run[i].calls[a], run[j].calls[b];
      && Saturated(epoch, first.reading.fine.value) <= first.pc.result <= second.pc.result
      && Saturated(epoch, second.reading.coarse) <= second.pc.result <= Saturated(epoch, latest + error)
  {
    EpochStays(run, i);
    EpochStays(run, j);
    RunInv(run, i);
    RunInv(run, j);
    TimeNeverDecreases(run, i, j, a, b);
    PublishedTimeIsNear(run, j, b, now, latest, error);
    assert CallOk(run[i], run[i].calls[a]) && CallOk(run[j], run[j].calls[b]);
  }

  /** The candidate is the time since the start if there is no epoch, and otherwise the
      epoch and what the better clock that answers says, saturated. */
  lemma CandidateIs(epoch: Option<nat>, r: Reading)
    requires r.coarse <= I64_MAX && (r.fine.Some? ==> r.fine.value <= I64_MAX)
    ensures epoch.None? ==> Candidate(epoch, r) == r.uptime
    ensures epoch.Some? && r.fine.Some? ==> Candidate(epoch, r) == Min(epoch.value + r.fine.value, I64_MAX)
    ensures epoch.Some? && r.fine.None? ==> Candidate(epoch, r) == Min(epoch.value + r.coarse, I64_MAX)
  {
  }

  /** A call that is not disturbed publishes its candidate if that is later than what is
      published, and returns the later of the two. */
  lemma UndisturbedCall(s: State, c: Caller, r: Reading)
    requires c !in s.calls
    ensures Enabled(s, Begin(c, r)) && Enabled(Apply(s, Begin(c, r)), Load(c))
    ensures var u, v := Apply(Apply(s, Begin(c, r)), Load(c)), Candidate(s.epoch, r);
      if v > s.cell then
        Enabled(u, Exchange(c)) && Apply(u, Exchange(c)).cell == v &&
        c in Apply(u, Exchange(c)).calls && Apply(u, Exchange(c)).calls[c].pc == Returned(v)
      else
        Enabled(u, Leave(c)) && Apply(u, Leave(c)).cell == s.cell &&
        c in Apply(u, Leave(c)).calls && Apply(u, Leave(c)).calls[c].pc == Returned(s.cell)
  {
  }

  /** A call that has begun can go on: it loads, leaves, or tries an exchange, which can
      succeed if nobody has changed the cell since it was read. */
  lemma CallsGoOn(run: seq<State>, i: nat, c: Caller)
    requires IsRun(run) && i < |run| && c in run[i].calls && !run[i].calls[c].pc.Returned?
    ensures var s, k := run[i], run[i].calls[c];
      || Enabled(s, Load(c)) || Enabled(s, Leave(c))
      || (Enabled(s, ExchangeFails(c)) && (k.pc.previous == s.cell ==> Enabled(s, Exchange(c))))
  {
  }

  /** A failed exchange tells the call what the cell holds now, with which it leaves or
      tries again. */
  lemma FailedExchange(s: State, c: Caller)
    requires Enabled(s, ExchangeFails(c))
    ensures var u, v := Apply(s, ExchangeFails(c)), s.calls[c].candidate;
      && u.cell == s.cell && c in u.calls && u.calls[c].candidate == v
      && if v > s.cell then Enabled(u, Exchange(c)) && Apply(u, Exchange(c)).cell == v
         else Enabled(u, Leave(c)) && Apply(u, Leave(c)).cell == s.cell
  {
  }
}
