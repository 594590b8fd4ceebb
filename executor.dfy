/** External commands as an oracle.

    Every `docker`, `curl`, `sh -c` and `ssh` process the core starts is an
    `Invocation`. What the process reports is decided by the environment, a
    function `respond` of the invocations issued so far and the new one: it
    returns the exit status with the captured output, or the error of a spawn
    that never ran. The `Executor` records every invocation in `log`.

    `RunAll` strings per-item runs together: each run sees the history left by
    the runs before it; with `stopOnFailure` it ends after the first failed run
    (a loop with `?`), without it every item runs (tasks spawned and joined). */
module Exec {
  import opened Wrappers

  datatype Invocation = Invocation(program: string, args: seq<string>)

  datatype CmdOutput =
    | SpawnError(reason: string)
    | Exited(success: bool, stdout: string, stderr: string)

  /** The environment's answer to an invocation, given everything issued before it. */
  type Respond = (seq<Invocation>, Invocation) -> CmdOutput

  predicate ExitedOk(o: CmdOutput) { o.Exited? && o.success }

  /** What a piece of the program computed and the invocations it issued, in order. */
  datatype Run<+T> = Run(result: T, issued: seq<Invocation>)

  class Executor {
    const respond: Respond
    var log: seq<Invocation>

    constructor (respond: Respond)
      ensures this.respond == respond && log == []
    {
      this.respond := respond;
      log := [];
    }

    /** `Command::new(program).args(args).output().await`. */
    method Spawn(inv: Invocation) returns (out: CmdOutput)
      modifies this
      ensures log == old(log) + [inv]
      ensures out == respond(old(log), inv)
    {
      out := respond(log, inv);
      log := log + [inv];
    }
  }

  /** One item's run, started after the given history. */
  type Step<!U> = (seq<Invocation>, U) -> Run<Outcome>

  function RunAll<U>(step: Step<U>, hist: seq<Invocation>, units: seq<U>, stopOnFailure: bool): (runs: seq<Run<Outcome>>)
    ensures |runs| <= |units|
    decreases |units|
  {
    if units == [] then []
    else
      var r := step(hist, units[0]);
      if stopOnFailure && r.result.Failed? then [r]
      else [r] + RunAll(step, hist + r.issued, units[1..], stopOnFailure)
  }

  /** The invocations of all runs, in order. */
  function Issued(runs: seq<Run<Outcome>>): seq<Invocation>
    decreases |runs|
  {
    if runs == [] then [] else Issued(runs[..|runs| - 1]) + runs[|runs| - 1].issued
  }

  function Outcomes(runs: seq<Run<Outcome>>): (os: seq<Outcome>)
    ensures |os| == |runs| && forall k :: 0 <= k < |runs| ==> os[k] == runs[k].result
  {
    seq(|runs|, k requires 0 <= k < |runs| => runs[k].result)
  }

  /** `for result in results { match result { Ok(()) => {}, Err(e) => return Err(e) } } Ok(())`:
      the first failure in order, or success when there is none. */
  function FirstError(os: seq<Outcome>): (o: Outcome)
    ensures o.Done? <==> forall k :: 0 <= k < |os| ==> os[k].Done?
    ensures o.Failed? ==> exists k :: 0 <= k < |os| && os[k] == o && forall j :: 0 <= j < k ==> os[j].Done?
    decreases |os|
  {
    if os == [] then Done
    else if os[0].Failed? then os[0]
    else
      var o := FirstError(os[1..]);
      assert forall k :: 1 <= k < |os| ==> os[k] == os[1..][k - 1];
      o
  }

  /** A sequence of runs seen from outside: the first failure and everything issued. */
  function Summarise(runs: seq<Run<Outcome>>): Run<Outcome> {
    Run(FirstError(Outcomes(runs)), Issued(runs))
  }

  /** `first?; second`: the second part counts only when the first
      succeeded; the caller starts it after what the first issued. */
  function Then(first: Run<Outcome>, second: Run<Outcome>): Run<Outcome> {
    if first.result.Failed? then first else Run(second.result, first.issued + second.issued)
  }

  lemma {:induction false} IssuedAppend(a: seq<Run<Outcome>>, b: seq<Run<Outcome>>)
    ensures Issued(a + b) == Issued(a) + Issued(b)
    decreases |b|
  {
    if b == [] {
      assert a + b == a;
    } else {
      var c := a + b;
      assert c[..|c| - 1] == a + b[..|b| - 1];
      IssuedAppend(a, b[..|b| - 1]);
    }
  }

  lemma {:induction false} FirstErrorAppend(a: seq<Outcome>, b: seq<Outcome>)
    ensures FirstError(a + b) == if FirstError(a).Failed? then FirstError(a) else FirstError(b)
    decreases |a|
  {
    if a == [] {
      assert a + b == b;
    } else {
      assert (a + b)[0] == a[0];
      assert (a + b)[1..] == a[1..] + b;
      FirstErrorAppend(a[1..], b);
    }
  }

  /** Appending one run to a sequence of runs, as a loop does. */
  lemma SummariseSnoc(done: seq<Run<Outcome>>, r: Run<Outcome>)
    ensures Issued(done + [r]) == Issued(done) + r.issued
    ensures Outcomes(done + [r]) == Outcomes(done) + [r.result]
    ensures FirstError(Outcomes(done + [r]))
            == if FirstError(Outcomes(done)).Failed? then FirstError(Outcomes(done)) else r.result
  {
    assert (done + [r])[..|done|] == done;
    assert Outcomes(done + [r]) == Outcomes(done) + [r.result];
    FirstErrorAppend(Outcomes(done), [r.result]);
  }

  /** One more item of a loop that runs the items in turn: the loop's runs so
      far, extended by this item's run, are still a prefix of the whole. */
  lemma RunAllNext<U>(step: Step<U>, hist0: seq<Invocation>, units: seq<U>, stop: bool,
                      done: seq<Run<Outcome>>, h: seq<Invocation>, rest: seq<U>)
    requires rest != [] && h == hist0 + Issued(done)
    requires RunAll(step, hist0, units, stop) == done + RunAll(step, h, rest, stop)
    ensures var r := step(h, rest[0]);
      && h + r.issued == hist0 + Issued(done + [r])
      && Outcomes(done + [r]) == Outcomes(done) + [r.result]
      && FirstError(Outcomes(done + [r]))
         == (if FirstError(Outcomes(done)).Failed? then FirstError(Outcomes(done)) else r.result)
      && (stop && r.result.Failed? ==> RunAll(step, hist0, units, stop) == done + [r])
      && (!(stop && r.result.Failed?) ==>
            RunAll(step, hist0, units, stop) == (done + [r]) + RunAll(step, h + r.issued, rest[1..], stop))
  {
    var r := step(h, rest[0]);
    SummariseSnoc(done, r);
    AppendAssoc(hist0, Issued(done), r.issued);
    if !(stop && r.result.Failed?) {
      AppendAssoc(done, [r], RunAll(step, h + r.issued, rest[1..], stop));
    }
  }

  /** Prepending one run to a sequence of runs. */
  lemma SummariseCons(r: Run<Outcome>, runs: seq<Run<Outcome>>)
    ensures Issued([r] + runs) == r.issued + Issued(runs)
    ensures FirstError(Outcomes([r] + runs))
            == if r.result.Failed? then r.result else FirstError(Outcomes(runs))
  {
    IssuedAppend([r], runs);
    assert Issued([r]) == r.issued by { assert [r][..0] == []; }
    assert Outcomes([r] + runs) == [r.result] + Outcomes(runs);
    FirstErrorAppend([r.result], Outcomes(runs));
  }

  /** Running the items of `a + b` is running those of `a`, then, unless
      that stopped at a failure, those of `b` after what `a` issued. */
  lemma {:induction false} RunAllAppend<U>(step: Step<U>, hist: seq<Invocation>, a: seq<U>, b: seq<U>, stop: bool)
    ensures var ra := RunAll(step, hist, a, stop);
      if stop && FirstError(Outcomes(ra)).Failed? then RunAll(step, hist, a + b, stop) == ra
      else RunAll(step, hist, a + b, stop) == ra + RunAll(step, hist + Issued(ra), b, stop)
    decreases |a|
  {
    if a == [] {
      assert a + b == b;
      assert hist + Issued([]) == hist;
    } else {
      var r := step(hist, a[0]);
      assert (a + b)[0] == a[0] && (a + b)[1..] == a[1..] + b;
      if stop && r.result.Failed? {
        assert RunAll(step, hist, a, stop) == [r];
        assert RunAll(step, hist, a + b, stop) == [r];
        assert Outcomes([r]) == [r.result];
      } else {
        var h := hist + r.issued;
        var ra' := RunAll(step, h, a[1..], stop);
        var rest := RunAll(step, h, a[1..] + b, stop);
        assert RunAll(step, hist, a, stop) == [r] + ra';
        assert RunAll(step, hist, a + b, stop) == [r] + rest;
        RunAllAppend(step, h, a[1..], b, stop);
        SummariseCons(r, ra');
        if !(stop && FirstError(Outcomes(ra')).Failed?) {
          var tail := RunAll(step, h + Issued(ra'), b, stop);
          assert rest == ra' + tail;
          AppendAssoc(hist, r.issued, Issued(ra'));
          AppendAssoc([r], ra', tail);
        }
      }
    }
  }

  /** A whole block of items in a loop that runs the items in turn. */
  lemma RunAllNextBlock<U>(step: Step<U>, hist0: seq<Invocation>, units: seq<U>, stop: bool,
                           done: seq<Run<Outcome>>, h: seq<Invocation>, block: seq<U>, rest: seq<U>)
    requires h == hist0 + Issued(done)
    requires RunAll(step, hist0, units, stop) == done + RunAll(step, h, block + rest, stop)
    ensures var rb := RunAll(step, h, block, stop);
      && h + Issued(rb) == hist0 + Issued(done + rb)
      && Outcomes(done + rb) == Outcomes(done) + Outcomes(rb)
      && FirstError(Outcomes(done + rb))
         == (if FirstError(Outcomes(done)).Failed? then FirstError(Outcomes(done)) else FirstError(Outcomes(rb)))
      && (stop && FirstError(Outcomes(rb)).Failed? ==> RunAll(step, hist0, units, stop) == done + rb)
      && (!(stop && FirstError(Outcomes(rb)).Failed?) ==>
            RunAll(step, hist0, units, stop) == (done + rb) + RunAll(step, h + Issued(rb), rest, stop))
  {
    var rb := RunAll(step, h, block, stop);
    SummariseAppend(hist0, done, rb);
    RunAllAppend(step, h, block, rest, stop);
    if !(stop && FirstError(Outcomes(rb)).Failed?) {
      AppendAssoc(done, rb, RunAll(step, h + Issued(rb), rest, stop));
    }
  }

  /** Appending a block of runs to the runs so far. */
  lemma SummariseAppend(hist0: seq<Invocation>, done: seq<Run<Outcome>>, rb: seq<Run<Outcome>>)
    ensures (hist0 + Issued(done)) + Issued(rb) == hist0 + Issued(done + rb)
    ensures Outcomes(done + rb) == Outcomes(done) + Outcomes(rb)
    ensures FirstError(Outcomes(done + rb))
            == if FirstError(Outcomes(done)).Failed? then FirstError(Outcomes(done)) else FirstError(Outcomes(rb))
  {
    IssuedAppend(done, rb);
    AppendAssoc(hist0, Issued(done), Issued(rb));
    assert Outcomes(done + rb) == Outcomes(done) + Outcomes(rb);
    FirstErrorAppend(Outcomes(done), Outcomes(rb));
  }

  lemma AppendAssoc<T>(a: seq<T>, b: seq<T>, c: seq<T>)
    ensures a + (b + c) == (a + b) + c
  {
  }

  /** A loop that ran out of items has run exactly what `RunAll` runs. */
  lemma RunAllEnd<U>(step: Step<U>, hist0: seq<Invocation>, units: seq<U>, stop: bool,
                     done: seq<Run<Outcome>>, h: seq<Invocation>, rest: seq<U>)
    requires rest == [] && RunAll(step, hist0, units, stop) == done + RunAll(step, h, rest, stop)
    ensures RunAll(step, hist0, units, stop) == done
  {
    assert done + [] == done;
  }

  /** Each run starts from the history left by all runs before it, on the item
      at the same position. */
  lemma {:induction false} RunAllSeesHistory<U>(step: Step<U>, hist: seq<Invocation>, units: seq<U>, stop: bool, k: nat)
    requires k < |RunAll(step, hist, units, stop)|
    ensures var runs := RunAll(step, hist, units, stop);
      runs[k] == step(hist + Issued(runs[..k]), units[k])
    decreases |units|
  {
    var runs := RunAll(step, hist, units, stop);
    var r := step(hist, units[0]);
    if k == 0 {
      assert runs[..0] == [];
      assert hist + Issued([]) == hist;
      assert runs[0] == r;
    } else {
      var h := hist + r.issued;
      var rest := RunAll(step, h, units[1..], stop);
      assert runs == [r] + rest;
      RunAllSeesHistory(step, h, units[1..], stop, k - 1);
      var pre := rest[..k - 1];
      assert runs[..k] == [r] + pre;
      HistoryAfterCons(hist, r, pre);
      assert runs[k] == rest[k - 1];
      assert units[1..][k - 1] == units[k];
    }
  }

  lemma HistoryAfterCons(hist: seq<Invocation>, r: Run<Outcome>, runs: seq<Run<Outcome>>)
    ensures hist + Issued([r] + runs) == (hist + r.issued) + Issued(runs)
  {
    IssuedAppend([r], runs);
    assert Issued([r]) == r.issued by { assert [r][..0] == []; }
    AppendAssoc(hist, r.issued, Issued(runs));
  }

  /** Without stopping, every item runs. */
  lemma {:induction false} RunAllRunsEveryUnit<U>(step: Step<U>, hist: seq<Invocation>, units: seq<U>)
    ensures |RunAll(step, hist, units, false)| == |units|
    decreases |units|
  {
    if units != [] {
      RunAllRunsEveryUnit(step, hist + step(hist, units[0]).issued, units[1..]);
    }
  }

  /** With stopping, every run but the last succeeded, and the runs end early
      only on a failure: no item after the first failing one is run. */
  lemma {:induction false} RunAllStopsAtFirstFailure<U>(step: Step<U>, hist: seq<Invocation>, units: seq<U>)
    ensures var runs := RunAll(step, hist, units, true);
      && (units != [] ==> runs != [])
      && (forall k :: 0 <= k < |runs| - 1 ==> runs[k].result.Done?)
      && (|runs| < |units| ==> runs[|runs| - 1].result.Failed?)
    decreases |units|
  {
    if units != [] {
      var r := step(hist, units[0]);
      if r.result.Done? {
        var rest := RunAll(step, hist + r.issued, units[1..], true);
        RunAllStopsAtFirstFailure(step, hist + r.issued, units[1..]);
        assert RunAll(step, hist, units, true) == [r] + rest;
      }
    }
  }

  /** Stopping at the first failure runs exactly a prefix of what running
      every item would run. */
  lemma {:induction false} StoppingIsPrefix<U>(step: Step<U>, hist: seq<Invocation>, units: seq<U>)
    ensures var stopped := RunAll(step, hist, units, true);
      var all := RunAll(step, hist, units, false);
      |stopped| <= |all| && stopped == all[..|stopped|]
    decreases |units|
  {
    RunAllRunsEveryUnit(step, hist, units);
    if units != [] {
      var r := step(hist, units[0]);
      var all := RunAll(step, hist, units, false);
      var rest := RunAll(step, hist + r.issued, units[1..], false);
      assert all == [r] + rest;
      if r.result.Done? {
        StoppingIsPrefix(step, hist + r.issued, units[1..]);
        var stoppedRest := RunAll(step, hist + r.issued, units[1..], true);
        assert ([r] + rest)[..1 + |stoppedRest|] == [r] + rest[..|stoppedRest|];
      } else {
        assert all[..1] == [r];
      }
    }
  }

  lemma OutcomesCons(r: Run<Outcome>, rest: seq<Run<Outcome>>)
    ensures Outcomes([r] + rest) == [r.result] + Outcomes(rest)
  {
  }

  lemma FirstErrorCons(o: Outcome, rest: seq<Outcome>)
    ensures FirstError([o] + rest) == if o.Failed? then o else FirstError(rest)
  {
    assert ([o] + rest)[0] == o;
    assert ([o] + rest)[1..] == rest;
  }

  /** Both dispatch policies return the same first failure. */
  lemma {:induction false} PoliciesAgreeOnOutcome<U>(step: Step<U>, hist: seq<Invocation>, units: seq<U>)
    ensures FirstError(Outcomes(RunAll(step, hist, units, true)))
         == FirstError(Outcomes(RunAll(step, hist, units, false)))
    decreases |units|
  {
    if units != [] {
      var r := step(hist, units[0]);
      var rest := RunAll(step, hist + r.issued, units[1..], false);
      assert RunAll(step, hist, units, false) == [r] + rest;
      OutcomesCons(r, rest);
      FirstErrorCons(r.result, Outcomes(rest));
      if r.result.Done? {
        var stoppedRest := RunAll(step, hist + r.issued, units[1..], true);
        assert RunAll(step, hist, units, true) == [r] + stoppedRest;
        PoliciesAgreeOnOutcome(step, hist + r.issued, units[1..]);
        OutcomesCons(r, stoppedRest);
        FirstErrorCons(r.result, Outcomes(stoppedRest));
      } else {
        assert RunAll(step, hist, units, true) == [r] + [];
        OutcomesCons(r, []);
        FirstErrorCons(r.result, []);
      }
    }
  }

  /** Seen from outside, stopping at the first failure changes only how much
      is issued: the same outcome, and a prefix of the invocations. */
  lemma StoppingSummary<U>(step: Step<U>, hist: seq<Invocation>, units: seq<U>)
    ensures var stopped := Summarise(RunAll(step, hist, units, true));
      var all := Summarise(RunAll(step, hist, units, false));
      && stopped.result == all.result
      && |stopped.issued| <= |all.issued| && all.issued[..|stopped.issued|] == stopped.issued
  {
    var stopped := RunAll(step, hist, units, true);
    var all := RunAll(step, hist, units, false);
    PoliciesAgreeOnOutcome(step, hist, units);
    StoppingIsPrefix(step, hist, units);
    assert all == stopped + all[|stopped|..];
    IssuedAppend(stopped, all[|stopped|..]);
  }

  /** A step that issues one invocation per item and judges its reply. */
  function CommandStep<U>(respond: Respond, inv: U -> Invocation, judge: CmdOutput -> Outcome): Step<U> {
    (h: seq<Invocation>, u: U) => Run(judge(respond(h, inv(u))), [inv(u)])
  }

  function Invocations<U>(inv: U -> Invocation, us: seq<U>): (invs: seq<Invocation>)
    ensures |invs| == |us| && forall k :: 0 <= k < |us| ==> invs[k] == inv(us[k])
  {
    seq(|us|, k requires 0 <= k < |us| => inv(us[k]))
  }

  /** The reply to the item at position `k` once all items before it were issued. */
  function ReplyAt<U>(respond: Respond, inv: U -> Invocation, hist: seq<Invocation>, us: seq<U>, k: nat): CmdOutput
    requires k < |us|
  {
    respond(hist + Invocations(inv, us[..k]), inv(us[k]))
  }

  lemma CommandRunAt<U>(respond: Respond, inv: U -> Invocation, judge: CmdOutput -> Outcome,
                        hist: seq<Invocation>, us: seq<U>, stop: bool, k: nat)
    requires k < |RunAll(CommandStep(respond, inv, judge), hist, us, stop)|
    ensures var runs := RunAll(CommandStep(respond, inv, judge), hist, us, stop);
      runs[k] == Run(judge(respond(hist + Issued(runs[..k]), inv(us[k]))), [inv(us[k])])
  {
    RunAllSeesHistory(CommandStep(respond, inv, judge), hist, us, stop, k);
  }

  lemma {:induction false} IssuedOneEach(runs: seq<Run<Outcome>>, invs: seq<Invocation>)
    requires |runs| == |invs| && forall k :: 0 <= k < |runs| ==> runs[k].issued == [invs[k]]
    ensures Issued(runs) == invs
    decreases |runs|
  {
    if runs != [] {
      var n := |runs| - 1;
      IssuedOneEach(runs[..n], invs[..n]);
      assert invs == invs[..n] + [invs[n]];
    }
  }

  lemma CommandIssuedPrefix<U>(respond: Respond, inv: U -> Invocation, judge: CmdOutput -> Outcome,
                               hist: seq<Invocation>, us: seq<U>, stop: bool, m: nat)
    requires m <= |RunAll(CommandStep(respond, inv, judge), hist, us, stop)|
    ensures Issued(RunAll(CommandStep(respond, inv, judge), hist, us, stop)[..m]) == Invocations(inv, us[..m])
  {
    var runs := RunAll(CommandStep(respond, inv, judge), hist, us, stop);
    var invs := Invocations(inv, us[..m]);
    forall k | 0 <= k < m
      ensures runs[..m][k].issued == [invs[k]]
    {
      CommandRunAt(respond, inv, judge, hist, us, stop, k);
    }
    IssuedOneEach(runs[..m], invs);
  }

  /** Each item's verdict is the judgement of its reply. */
  lemma CommandVerdicts<U>(respond: Respond, inv: U -> Invocation, judge: CmdOutput -> Outcome,
                           hist: seq<Invocation>, us: seq<U>, stop: bool)
    ensures var runs := RunAll(CommandStep(respond, inv, judge), hist, us, stop);
      && Issued(runs) == Invocations(inv, us[..|runs|])
      && forall k :: 0 <= k < |runs| ==> runs[k].result == judge(ReplyAt(respond, inv, hist, us, k))
  {
    var runs := RunAll(CommandStep(respond, inv, judge), hist, us, stop);
    CommandIssuedPrefix(respond, inv, judge, hist, us, stop, |runs|);
    assert runs[..|runs|] == runs;
    forall k | 0 <= k < |runs|
      ensures runs[k].result == judge(ReplyAt(respond, inv, hist, us, k))
    {
      CommandRunAt(respond, inv, judge, hist, us, stop, k);
      CommandIssuedPrefix(respond, inv, judge, hist, us, stop, k);
    }
  }

  /** Issuing one command per item and stopping at the first failure: the
      commands issued are a prefix of the items in order, every command but
      the last one issued succeeded, the run stops early only after a failure,
      and the outcome is the failing command's verdict, or success when every
      command ran and succeeded. */
  lemma CommandSequence<U>(respond: Respond, inv: U -> Invocation, judge: CmdOutput -> Outcome,
                           hist: seq<Invocation>, us: seq<U>)
    ensures var r := Summarise(RunAll(CommandStep(respond, inv, judge), hist, us, true));
      var n := |r.issued|;
      && n <= |us|
      && r.issued == Invocations(inv, us[..n])
      && (us != [] ==> n >= 1)
      && (forall k :: 0 <= k < n - 1 ==> judge(ReplyAt(respond, inv, hist, us, k)).Done?)
      && (0 < n < |us| ==> judge(ReplyAt(respond, inv, hist, us, n - 1)).Failed?)
      && (r.result.Done? <==> n == |us| && forall k :: 0 <= k < n ==> judge(ReplyAt(respond, inv, hist, us, k)).Done?)
      && (r.result.Failed? ==> n >= 1 && r.result == judge(ReplyAt(respond, inv, hist, us, n - 1)))
  {
    var runs := RunAll(CommandStep(respond, inv, judge), hist, us, true);
    CommandVerdicts(respond, inv, judge, hist, us, true);
    RunAllStopsAtFirstFailure(CommandStep(respond, inv, judge), hist, us);
    var os := Outcomes(runs);
    if FirstError(os).Failed? {
      var k :| 0 <= k < |os| && os[k] == FirstError(os) && forall j :: 0 <= j < k ==> os[j].Done?;
      assert k == |runs| - 1;
    }
  }
}
