/** What callers are given and what the cache holds, traced back to the steps it came from. */
module DnsAnswers {
  import opened Basics
  import opened DnsCache
  import opened DnsProtocol
  import opened DnsInvariants
  import opened DnsSafety

  predicate Follows(s: State, step: Step, s': State) { Enabled(s, step) && s' == Apply(s, step) }

  /** The states of a run and the steps between them. */
  ghost predicate IsTrace(run: seq<State>, steps: seq<Step>) {
    && |run| == |steps| + 1 && Init(run[0])
    && (forall i :: 0 <= i < |steps| ==> Follows(run[i], steps[i], run[i + 1]))
  }

  lemma TraceInv(run: seq<State>, steps: seq<Step>, n: nat)
    requires IsTrace(run, steps) && n <= |steps|
    ensures IsRun(run) && Inv(run[n])
  {
    forall i | 0 <= i < |run| - 1
      ensures Next(run[i], run[i + 1])
    {
      assert Follows(run[i], steps[i], run[i + 1]);
    }
    RunInv(run, n);
  }

  // ---------------------------------------------------------------------------------------------
  // Nobody gets an error unless somebody gives up

  predicate GivesUp(step: Step) { step.Abandon? || step.WaitCancelled? || step.TimeOut? }

  predicate NoErrorAfter(a: After) { a.ThenReturn? ==> !a.outcome.ContextError? }

  predicate NoErrorTask(t: Task) {
    (t.Returned? ==> !t.outcome.ContextError?) && (t.Pop? || t.Leave? ==> NoErrorAfter(t.after))
  }

  predicate NoErrors(s: State) {
    && (forall p :: p in s.tasks ==> NoErrorTask(s.tasks[p]))
    && (forall f :: f in s.heap ==> s.heap[f].result != Some(ContextError))
  }

  lemma NoErrorMoved(s: State, step: Step)
    requires NoErrors(s) && Enabled(s, step) && !step.Tick? && !GivesUp(step)
    ensures step.p in Apply(s, step).tasks && NoErrorTask(Apply(s, step).tasks[step.p])
  {
  }

  lemma NoErrorFlights(s: State, step: Step)
    requires NoErrors(s) && Enabled(s, step) && !GivesUp(step)
    ensures forall f :: f in Apply(s, step).heap ==> Apply(s, step).heap[f].result != Some(ContextError)
  {
  }

  lemma NoErrorsStep(s: State, step: Step)
    requires NoErrors(s) && Enabled(s, step) && !GivesUp(step)
    ensures NoErrors(Apply(s, step))
  {
    var s' := Apply(s, step);
    NoErrorFlights(s, step);
    forall p | p in s'.tasks
      ensures NoErrorTask(s'.tasks[p])
    {
      if !step.Tick? && p == step.p {
        NoErrorMoved(s, step);
      } else {
        OthersStay(s, step, p);
      }
    }
  }

  /** Returned with a context error, or about to. */
  predicate HasError(t: Task) {
    || (t.Returned? && t.outcome.ContextError?)
    || ((t.Pop? || t.Leave?) && t.after.ThenReturn? && t.after.outcome.ContextError?)
  }

  /** This caller gives up, or is told that its flight timed out. */
  predicate GetsError(s: State, step: Step, p: Pid) {
    || step == Abandon(p) || step == WaitCancelled(p)
    || (step == WaitDone(p) && Enabled(s, step) && s.heap[s.tasks[p].flight].result == Some(ContextError))
  }

  lemma HasErrorStep(s: State, step: Step, p: Pid)
    requires Enabled(s, step) && p in Apply(s, step).tasks
    ensures HasError(Apply(s, step).tasks[p]) <==> (p in s.tasks && HasError(s.tasks[p])) || GetsError(s, step, p)
  {
    if !step.Tick? && p == step.p {
      HasErrorMoved(s, step);
    } else {
      OthersStay(s, step, p);
    }
  }

  lemma HasErrorMoved(s: State, step: Step)
    requires Enabled(s, step) && !step.Tick?
    ensures var p := step.p;
            && p in Apply(s, step).tasks
            && (HasError(Apply(s, step).tasks[p]) <==> (p in s.tasks && HasError(s.tasks[p])) || GetsError(s, step, p))
  {
  }

  /** A caller returns a context error exactly if it gave up or its flight timed out. */
  lemma {:induction false} ErrorsHaveReasons(run: seq<State>, steps: seq<Step>, n: nat, p: Pid)
    requires IsTrace(run, steps) && n <= |steps| && p in run[n].tasks
    ensures HasError(run[n].tasks[p]) <==> exists j :: 0 <= j < n && GetsError(run[j], steps[j], p)
  {
    if n > 0 {
      assert Follows(run[n - 1], steps[n - 1], run[n - 1 + 1]);
      HasErrorStep(run[n - 1], steps[n - 1], p);
      if p in run[n - 1].tasks {
        ErrorsHaveReasons(run, steps, n - 1, p);
      } else {
        NotBefore(run, steps, n - 1, p);
      }
    }
  }

  /** A goroutine that is not there has done nothing. */
  lemma {:induction false} NotBefore(run: seq<State>, steps: seq<Step>, n: nat, p: Pid)
    requires IsTrace(run, steps) && n <= |steps| && p !in run[n].tasks
    ensures forall j :: 0 <= j < n ==> !GetsError(run[j], steps[j], p)
  {
    if n > 0 {
      assert Follows(run[n - 1], steps[n - 1], run[n - 1 + 1]);
      TasksStay(run[n - 1], steps[n - 1], p);
      NotBefore(run, steps, n - 1, p);
    }
  }

  lemma TasksStay(s: State, step: Step, p: Pid)
    requires Enabled(s, step) && p !in Apply(s, step).tasks
    ensures p !in s.tasks
  {
  }

  /** As long as no caller gives up and no flight times out, no caller gets a context error and no flight has one. */
  lemma NoErrorUnlessGivenUp(run: seq<State>, steps: seq<Step>, n: nat)
    requires IsTrace(run, steps) && n <= |steps| && (forall i :: 0 <= i < n ==> !GivesUp(steps[i]))
    ensures forall p :: p in run[n].tasks && run[n].tasks[p].Returned? ==> !run[n].tasks[p].outcome.ContextError?
    ensures forall f :: f in run[n].heap ==> run[n].heap[f].result != Some(ContextError)
  {
    NoErrorsRun(run, steps, n);
    assert forall p :: p in run[n].tasks ==> NoErrorTask(run[n].tasks[p]);
  }

  lemma {:induction false} NoErrorsRun(run: seq<State>, steps: seq<Step>, n: nat)
    requires IsTrace(run, steps) && n <= |steps| && (forall i :: 0 <= i < n ==> !GivesUp(steps[i]))
    ensures NoErrors(run[n])
  {
    if n > 0 {
      NoErrorsRun(run, steps, n - 1);
      assert Follows(run[n - 1], steps[n - 1], run[n - 1 + 1]);
      NoErrorsStep(run[n - 1], steps[n - 1]);
    }
  }

  // ---------------------------------------------------------------------------------------------
  // A flight has the answer of its own lookup

  /** `run` before its lookup is over: the flight has no result yet. */
  predicate Unanswered(s: State) {
    forall p :: p in s.tasks && (s.tasks[p].AwaitGlobal? || s.tasks[p].Looking?) ==>
      s.tasks[p].flight in s.heap && s.heap[s.tasks[p].flight].result.None?
  }

  /** A step that settles a flight: the lookup of its goroutine comes back, or that goroutine times out. */
  predicate Settles(s: State, step: Step, f: FlightId, o: Outcome) {
    && (step.Answer? || step.TimeOut?) && step.p in s.tasks && Running(s.tasks[step.p]) && s.tasks[step.p].flight == f
    && o == if step.Answer? then FromFlight(step.result) else ContextError
  }

  /** No other step changes a result. */
  lemma ResultsOf(s: State, step: Step, f: FlightId)
    requires Enabled(s, step) && f in s.heap
    ensures f in Apply(s, step).heap
    ensures (exists o :: Settles(s, step, f, o) && Apply(s, step).heap[f].result == Some(o)) ||
            Apply(s, step).heap[f].result == s.heap[f].result
  {
    if step.Answer? && s.tasks[step.p].flight == f {
      assert Settles(s, step, f, FromFlight(step.result));
    } else if step.TimeOut? && s.tasks[step.p].flight == f {
      assert Settles(s, step, f, ContextError);
    }
  }

  /** A new flight has no result. */
  lemma NewFlights(s: State, step: Step, f: FlightId)
    requires Enabled(s, step) && f !in s.heap && f in Apply(s, step).heap
    ensures Apply(s, step).heap[f].result.None?
  {
  }

  lemma UnansweredMoved(s: State, step: Step)
    requires Unanswered(s) && Enabled(s, step) && !step.Tick?
    ensures var s' := Apply(s, step);
            step.p in s'.tasks && (s'.tasks[step.p].AwaitGlobal? || s'.tasks[step.p].Looking? ==>
              s'.tasks[step.p].flight in s'.heap && s'.heap[s'.tasks[step.p].flight].result.None?)
  {
  }

  lemma UnansweredOther(s: State, step: Step, p: Pid)
    requires FlightsInv(s) && Unanswered(s) && Enabled(s, step) && p in s.tasks && (step.Tick? || p != step.p)
    requires s.tasks[p].AwaitGlobal? || s.tasks[p].Looking?
    ensures s.tasks[p].flight in Apply(s, step).heap && Apply(s, step).heap[s.tasks[p].flight].result.None?
  {
    var f := s.tasks[p].flight;
    ResultsOf(s, step, f);
    assert OwnsFlight(s, p);
    if step.Answer? || step.TimeOut? {
      assert OwnsFlight(s, step.p);
    }
  }

  lemma UnansweredStep(s: State, step: Step)
    requires FlightsInv(s) && Unanswered(s) && Enabled(s, step)
    ensures Unanswered(Apply(s, step))
  {
    var s' := Apply(s, step);
    forall p | p in s'.tasks && (s'.tasks[p].AwaitGlobal? || s'.tasks[p].Looking?)
      ensures s'.tasks[p].flight in s'.heap && s'.heap[s'.tasks[p].flight].result.None?
    {
      if !step.Tick? && p == step.p {
        UnansweredMoved(s, step);
      } else {
        OthersStay(s, step, p);
        if p in s.tasks && s'.tasks[p] == s.tasks[p] {
          UnansweredOther(s, step, p);
        }
      }
    }
  }

  lemma {:induction false} UnansweredRun(run: seq<State>, steps: seq<Step>, n: nat)
    requires IsTrace(run, steps) && n <= |steps|
    ensures Unanswered(run[n])
  {
    if n > 0 {
      UnansweredRun(run, steps, n - 1);
      TraceInv(run, steps, n - 1);
      assert Follows(run[n - 1], steps[n - 1], run[n - 1 + 1]);
      UnansweredStep(run[n - 1], steps[n - 1]);
    }
  }

  /** A result that is there stays. */
  lemma ResultKept(s: State, step: Step, f: FlightId)
    requires Unanswered(s) && Enabled(s, step) && f in s.heap && s.heap[f].result.Some?
    ensures f in Apply(s, step).heap && Apply(s, step).heap[f].result == s.heap[f].result
  {
    ResultsOf(s, step, f);
  }

  /** The result of a flight is what the lookup of its own goroutine gave, or an error if that timed out. */
  lemma {:induction false} ResultHasStep(run: seq<State>, steps: seq<Step>, n: nat, f: FlightId) returns (j: nat)
    requires IsTrace(run, steps) && n <= |steps| && f in run[n].heap && run[n].heap[f].result.Some?
    ensures j < n && Settles(run[j], steps[j], f, run[n].heap[f].result.value)
  {
    if n == 0 {
      assert false;
    } else {
      var s, step := run[n - 1], steps[n - 1];
      assert Follows(s, step, run[n - 1 + 1]);
      if f !in s.heap {
        NewFlights(s, step, f);
      } else {
        ResultsOf(s, step, f);
        j := n - 1;
        if run[n].heap[f].result == s.heap[f].result && !Settles(s, step, f, run[n].heap[f].result.value) {
          j := ResultHasStep(run, steps, n - 1, f);
        }
      }
    }
  }

  lemma ReturnedStays(s: State, step: Step, p: Pid)
    requires Enabled(s, step) && p in s.tasks && s.tasks[p].Returned?
    ensures p in Apply(s, step).tasks && Apply(s, step).tasks[p] == s.tasks[p]
  {
  }

  lemma {:induction false} ReturnedForGood(run: seq<State>, steps: seq<Step>, n: nat, m: nat, p: Pid)
    requires IsTrace(run, steps) && n <= m <= |steps| && p in run[n].tasks && run[n].tasks[p].Returned?
    ensures p in run[m].tasks && run[m].tasks[p] == run[n].tasks[p]
    decreases m
  {
    if n < m {
      ReturnedForGood(run, steps, n, m - 1, p);
      assert Follows(run[m - 1], steps[m - 1], run[m - 1 + 1]);
      ReturnedStays(run[m - 1], steps[m - 1], p);
    }
  }

  /** A caller that waited for a flight and did not give up returns, for good, exactly what the lookup of that flight
      gave, or an error if it timed out. */
  lemma WaiterGetsAnswer(run: seq<State>, steps: seq<Step>, n: nat, p: Pid, m: nat) returns (j: nat)
    requires IsTrace(run, steps) && n < m <= |steps| && steps[n] == WaitDone(p)
    ensures p in run[n].tasks && run[n].tasks[p].Wait? && p in run[m].tasks && run[m].tasks[p].Returned?
    ensures run[m].tasks[p].query == run[n].tasks[p].query
    ensures j < n && Settles(run[j], steps[j], run[n].tasks[p].flight, run[m].tasks[p].outcome)
  {
    assert Follows(run[n], steps[n], run[n + 1]);
    j := ResultHasStep(run, steps, n, run[n].tasks[p].flight);
    ReturnedForGood(run, steps, n + 1, m, p);
  }

  /** Two callers that waited for the same flight return the same. */
  lemma SameFlightSameAnswer(run: seq<State>, steps: seq<Step>, n: nat, p: Pid, k: nat, q: Pid)
    requires IsTrace(run, steps) && n <= k < |steps| && steps[n] == WaitDone(p) && steps[k] == WaitDone(q)
    requires p in run[n].tasks && q in run[k].tasks && run[n].tasks[p].Wait? && run[k].tasks[q].Wait?
    requires run[n].tasks[p].flight == run[k].tasks[q].flight
    ensures p in run[n + 1].tasks && run[n + 1].tasks[p].Returned? && q in run[k + 1].tasks && run[k + 1].tasks[q].Returned?
    ensures run[n + 1].tasks[p].outcome == run[k + 1].tasks[q].outcome
  {
    assert Follows(run[n], steps[n], run[n + 1]) && Follows(run[k], steps[k], run[k + 1]);
    TraceInv(run, steps, n);
    AnswerIsFixed(run, n, k, run[n].tasks[p].flight);
  }

  // ---------------------------------------------------------------------------------------------
  // What is looked up is kept

  /** `run` carries the result of its flight to the cache. */
  predicate Carries(s: State, t: Task) {
    && (t.Looked? || t.Stamp? ==> t.flight in s.heap && s.heap[t.flight].result == Some(FromFlight(t.result)))
    && (t.Insert? ==> t.flight in s.heap && s.heap[t.flight].result == Some(FromFlight(t.entry.result)))
    && (t.Insert? ==> t.entry.result.Ttl().Some? && t.entry.expires == t.entry.stamped + t.entry.result.Ttl().value)
  }

  predicate CarriesAll(s: State) { forall p :: p in s.tasks ==> Carries(s, s.tasks[p]) }

  lemma CarriesMoved(s: State, step: Step)
    requires Enabled(s, step) && !step.Tick? && (step.Call? || Carries(s, s.tasks[step.p]))
    ensures step.p in Apply(s, step).tasks && Carries(Apply(s, step), Apply(s, step).tasks[step.p])
  {
  }

  lemma CarriesStep(s: State, step: Step)
    requires Unanswered(s) && CarriesAll(s) && Enabled(s, step)
    ensures CarriesAll(Apply(s, step))
  {
    var s' := Apply(s, step);
    forall p | p in s'.tasks
      ensures Carries(s', s'.tasks[p])
    {
      if !step.Tick? && p == step.p {
        CarriesMoved(s, step);
      } else {
        OthersStay(s, step, p);
        if p in s.tasks && s'.tasks[p] == s.tasks[p] {
          assert Carries(s, s.tasks[p]);
          if s.tasks[p].Looked? || s.tasks[p].Stamp? || s.tasks[p].Insert? {
            ResultKept(s, step, s.tasks[p].flight);
          }
        }
      }
    }
  }

  lemma {:induction false} CarriesRun(run: seq<State>, steps: seq<Step>, n: nat)
    requires IsTrace(run, steps) && n <= |steps|
    ensures CarriesAll(run[n])
  {
    if n > 0 {
      CarriesRun(run, steps, n - 1);
      UnansweredRun(run, steps, n - 1);
      assert Follows(run[n - 1], steps[n - 1], run[n - 1 + 1]);
      CarriesStep(run[n - 1], steps[n - 1]);
    }
  }

  /** This step puts this result in the cache under this key, until its lifetime is over. */
  predicate Stores(s: State, step: Step, s': State, key: string, result: LookupResult) {
    && step.DoInsert? && key in s'.sh.entries && s'.sh.entries[key].result == result && result.Ttl().Some?
    && s'.sh.entries[key].expires == s'.sh.entries[key].stamped + result.Ttl().value
  }

  lemma InsertStores(s: State, step: Step)
    requires Enabled(s, step) && step.DoInsert? && Carries(s, s.tasks[step.p])
    ensures Stores(s, step, Apply(s, step), KeyOf(s.tasks[step.p].query), s.tasks[step.p].entry.result)
  {
  }

  predicate Leaving(t: Task) { t.Unregister? || t.Close? }

  /** How a goroutine comes to leave its flight. */
  lemma HowItLeaves(s: State, step: Step, p: Pid)
    requires Enabled(s, step) && p in Apply(s, step).tasks && Leaving(Apply(s, step).tasks[p])
    ensures p in s.tasks && Running(s.tasks[p])
    ensures s.tasks[p].flight == Apply(s, step).tasks[p].flight && s.tasks[p].query == Apply(s, step).tasks[p].query
    ensures || Leaving(s.tasks[p])
            || (step == TimeOut(p) && Apply(s, step).heap[s.tasks[p].flight].result == Some(ContextError))
            || (step == DoStamp(p) && s.tasks[p].Stamp? && s.tasks[p].result.Ttl().None? && Apply(s, step).heap == s.heap)
            || (step.DoInsert? && step.p == p && s.tasks[p].Insert? && Apply(s, step).heap == s.heap)
  {
  }

  /** The flight that this goroutine leaves has this result. */
  predicate LeavesWith(s: State, p: Pid, q: Query, result: LookupResult) {
    && p in s.tasks && Leaving(s.tasks[p]) && s.tasks[p].query == q
    && s.tasks[p].flight in s.heap && s.heap[s.tasks[p].flight].result == Some(FromFlight(result))
  }

  predicate OverAt(s: State, p: Pid) {
    p in s.tasks && Leaving(s.tasks[p]) ==> s.tasks[p].flight in s.heap && s.heap[s.tasks[p].flight].result.Some?
  }

  lemma StoredOnLeaving(s: State, step: Step, s': State, p: Pid, q: Query, result: LookupResult)
    requires Follows(s, step, s') && LeavesWith(s', p, q, result) && result.Ttl().Some?
    requires Unanswered(s) && CarriesAll(s) && OverAt(s, p)
    ensures LeavesWith(s, p, q, result) || Stores(s, step, s', KeyOf(q), result)
  {
    HowItLeaves(s, step, p);
    assert Carries(s, s.tasks[p]);
    if Leaving(s.tasks[p]) {
      ResultKept(s, step, s.tasks[p].flight);
    } else if step.DoInsert? {
      InsertStores(s, step);
    }
  }

  lemma OverWhenLeaving(run: seq<State>, steps: seq<Step>, n: nat, p: Pid)
    requires IsTrace(run, steps) && n <= |steps|
    ensures OverAt(run[n], p)
  {
    TraceInv(run, steps, n);
  }

  lemma StoredAt(run: seq<State>, steps: seq<Step>, n: nat, p: Pid, q: Query, result: LookupResult)
    requires IsTrace(run, steps) && n < |steps| && LeavesWith(run[n + 1], p, q, result) && result.Ttl().Some?
    ensures LeavesWith(run[n], p, q, result) || Stores(run[n], steps[n], run[n + 1], KeyOf(q), result)
  {
    CarriesRun(run, steps, n);
    UnansweredRun(run, steps, n);
    OverWhenLeaving(run, steps, n, p);
    StoredOnLeaving(run[n], steps[n], run[n + 1], p, q, result);
  }

  /** A flight whose lookup gave something that may be cached has put it in the cache before it leaves the map and before
      anybody is told. */
  lemma {:induction false} CacheableIsStored(run: seq<State>, steps: seq<Step>, n: nat, p: Pid, q: Query,
                                             result: LookupResult) returns (j: nat)
    requires IsTrace(run, steps) && n <= |steps| && LeavesWith(run[n], p, q, result) && result.Ttl().Some?
    ensures j < n && Stores(run[j], steps[j], run[j + 1], KeyOf(q), result)
  {
    if n == 0 {
      assert false;
    } else {
      StoredAt(run, steps, n - 1, p, q, result);
      j := n - 1;
      if LeavesWith(run[n - 1], p, q, result) {
        j := CacheableIsStored(run, steps, n - 1, p, q, result);
      }
    }
  }

  // ---------------------------------------------------------------------------------------------
  // What is kept is served

  /** What a look at the maps leads to: a fresh entry is served, else a flight is waited for, else there is work to do. */
  predicate LeadsTo(s: State, q: Query, a: After) {
    var key := KeyOf(q);
    if key in s.sh.entries && s.now < s.sh.entries[key].expires then
      a == ThenReturn(q, FromCache(s.sh.entries[key].result, s.sh.entries[key].stamped, s.now))
    else if key in s.sh.flights then a == ThenWait(q, s.sh.flights[key])
    else a == ThenExit
  }

  /** Whether there is something to serve or to wait for. */
  predicate Known(s: State, q: Query) {
    (KeyOf(q) in s.sh.entries && s.now < s.sh.entries[KeyOf(q)].expires) || KeyOf(q) in s.sh.flights
  }

  /** The first look: who finds something takes it at once and uses no slot, who finds nothing goes for a slot if tagged. */
  lemma FirstLook(s: State, p: Pid, a: After)
    requires Enabled(s, DoFind(p)) && LeadsTo(s, s.tasks[p].query, a)
    ensures var t, t' := s.tasks[p], Apply(s, DoFind(p)).tasks[p];
            if Known(s, t.query) then t' == Resume(a)
            else if t.client.Some? then t' == Enter(t.query, t.client.value) else t' == Recheck(t.query, None, None)
    ensures Apply(s, DoFind(p)).sh == s.sh && Apply(s, DoFind(p)).heap == s.heap
  {
  }

  /** The second look: who finds something now gives back the slot and takes it, who finds nothing starts the only flight
      there is for the query and waits for it. */
  lemma SecondLook(s: State, p: Pid, f: FlightId, r: Pid, a: After)
    requires Enabled(s, DoRecheck(p, f, r)) && LeadsTo(s, s.tasks[p].query, a)
    ensures var t, s' := s.tasks[p], Apply(s, DoRecheck(p, f, r));
            if Known(s, t.query) then
              s'.tasks[p] == Release(t.held, a) && s'.sh == s.sh && s'.heap == s.heap && r !in s'.tasks
            else
              && s'.tasks[p] == Wait(t.query, f) && s'.tasks[r] == AwaitGlobal(t.query, f, t.held)
              && s'.sh.flights == s.sh.flights[KeyOf(t.query) := f]
              && s'.heap == s.heap[f := Flight(t.query, t.client, r, None, false)]
  {
  }

  // ---------------------------------------------------------------------------------------------
  // Lifetimes

  /** Addresses live thirty seconds, a name that does not exist five, any other failure three, and an empty answer is
      not kept at all. Times are nanoseconds. */
  predicate LivesFor(result: LookupResult, age: int) {
    match result
    case Addresses(addrs) => addrs != [] && age == 30_000_000_000
    case NotFound(_) => age == 5_000_000_000
    case Failed(_) => age == 3_000_000_000
  }

  lemma TtlIs(result: LookupResult, age: int)
    ensures result.Ttl() == Some(age) <==> LivesFor(result, age)
  {
  }

  /** Every entry expires when the lifetime of its class is over, and every answer from the cache is younger. */
  lemma Lifetimes(run: seq<State>, i: nat, key: string, p: Pid, age: int)
    requires IsRun(run) && i < |run|
    ensures key in run[i].sh.entries ==>
              var e := run[i].sh.entries[key]; LivesFor(e.result, e.expires - e.stamped) && e.stamped <= run[i].now
    ensures p in run[i].tasks && run[i].tasks[p].Returned? && run[i].tasks[p].outcome.FromCache? ==>
              var o := run[i].tasks[p].outcome; LivesFor(o.result, age) ==> 0 <= o.servedAt - o.stamped < age
  {
    RunInv(run, i);
    var s := run[i];
    if key in s.sh.entries {
      var q :| KeyOf(q) == key && PlainNetwork(q) && GenuineEntry(s, q, s.sh.entries[key]);
      TtlIs(s.sh.entries[key].result, s.sh.entries[key].expires - s.sh.entries[key].stamped);
    }
    if p in s.tasks && s.tasks[p].Returned? && s.tasks[p].outcome.FromCache? {
      assert GenuineTask(s, s.tasks[p]);
      TtlIs(s.tasks[p].outcome.result, age);
    }
  }
}
