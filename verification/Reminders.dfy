/**
  The claim and release protocol between reminder workers (abandoned.py), as a
  state machine over one local cart table. Any number of workers interleave with
  each other, with shoppers and with the merge of remote rows.
*/
module Reminders {

  import Paging

  type Token = Paging.Token

  /** sent is the claim flag: it is set before a reminder goes out and cleared if the mail fails. */
  datatype Row = Row(sent: bool, converted: bool)

  /** Where a worker is with the cart it holds. */
  datatype Work = Claimed(token: Token) | Refused(token: Token) | Accepted(token: Token)

  datatype Event = Claim(token: Token) | Mail(token: Token) | Convert(token: Token)

  /** rows is this machine's table; remote is the copy that other machines share. */
  datatype State = State(rows: map<Token, Row>, remote: map<Token, Row>, busy: map<nat, Work>, log: seq<Event>)

  /** mirrored says whether the best-effort copy to the remote table went through. */
  datatype Step = TryClaim(worker: nat, token: Token)
                | Send(worker: nat, ok: bool)
                | Finish(worker: nat, mirrored: bool)
                | Crash(worker: nat)
                | Capture(token: Token, mirrored: bool)
                | Complete(token: Token, mirrored: bool)
                | CloseInvalid(token: Token, mirrored: bool)
                | Purge(token: Token, mirrored: bool)
                | Merge(token: Token)
                | Elsewhere(token: Token, row: Row)

  const FRESH := Row(false, false)

  /** The remote table shows the cart as due: a page read copies it into the local one. */
  predicate Offered(s: State, t: Token)
  {
    t in s.remote && s.remote[t] == FRESH
  }

  /** One step of the system; a step that does not apply changes nothing. */
  function Next(s: State, step: Step): State
  {
    NextHere(s, step).(remote := NextRemote(s, step))
  }

  /** What a step does to the local table, the workers and the log. */
  function NextHere(s: State, step: Step): State
  {
    match step
    case TryClaim(w, t) =>
      if w !in s.busy && t in s.rows && !s.rows[t].sent && !s.rows[t].converted
      then s.(rows := s.rows[t := s.rows[t].(sent := true)], busy := s.busy[w := Claimed(t)],
              log := s.log + [Event.Claim(t)])
      else s
    case Send(w, ok) =>
      if w in s.busy && s.busy[w].Claimed?
      then if ok then s.(busy := s.busy[w := Accepted(s.busy[w].token)], log := s.log + [Mail(s.busy[w].token)])
           else s.(busy := s.busy[w := Refused(s.busy[w].token)])
      else s
    case Finish(w, _) =>
      if w !in s.busy || s.busy[w].Claimed? then s
      else if s.busy[w].Accepted? then s.(busy := s.busy - {w})
      else s.(rows := SetSent(s.rows, s.busy[w].token, false), busy := s.busy - {w})
    case Crash(w) => s.(busy := s.busy - {w})
    case Capture(t, _) => if t in s.rows then s else s.(rows := s.rows[t := FRESH])
    case Complete(t, _) =>
      s.(rows := if t in s.rows then s.rows[t := s.rows[t].(converted := true)] else s.rows,
         log := s.log + [Event.Convert(t)])
    case CloseInvalid(t, _) => s.(rows := SetSent(s.rows, t, true))
    case Purge(t, _) => s.(rows := s.rows - {t})
    case Merge(t) => if Offered(s, t) then s.(rows := s.rows[t := FRESH]) else s
    case Elsewhere(_, _) => s
  }

  /** What it does to the remote copy: the claim itself is never mirrored, only its success. */
  function NextRemote(s: State, step: Step): map<Token, Row>
  {
    match step
    case Finish(w, mirrored) =>
      if mirrored && w in s.busy && s.busy[w].Accepted? then SetSent(s.remote, s.busy[w].token, true) else s.remote
    case Capture(t, mirrored) => if mirrored then s.remote[t := if t in s.rows then s.rows[t] else FRESH] else s.remote
    case Complete(t, mirrored) =>
      if mirrored && t in s.remote then s.remote[t := s.remote[t].(converted := true)] else s.remote
    case CloseInvalid(t, mirrored) => if mirrored then SetSent(s.remote, t, true) else s.remote
    case Purge(t, mirrored) => if mirrored then s.remote - {t} else s.remote
    case Elsewhere(t, row) => s.remote[t := row]
    case _ => s.remote
  }

  function SetSent(rows: map<Token, Row>, t: Token, sent: bool): map<Token, Row>
  {
    if t in rows then rows[t := rows[t].(sent := sent)] else rows
  }

  function Run(s: State, steps: seq<Step>): State
  {
    if |steps| == 0 then s else Next(Run(s, steps[..|steps| - 1]), steps[|steps| - 1])
  }

  const START := State(map[], map[], map[], [])

  // ------------------------------------------------------------------- what is promised

  predicate Logged(log: seq<Event>, e: Event)
  {
    exists i :: 0 <= i < |log| && log[i] == e
  }

  /** No cart is mailed twice. */
  predicate AtMostOnce(log: seq<Event>)
  {
    forall i, j :: 0 <= i < j < |log| && log[i].Mail? ==> log[i] != log[j]
  }

  /** No cart is claimed once its buyer has ordered, whether or not it was in the table by then. */
  predicate NoLateClaim(log: seq<Event>)
  {
    forall i, j :: 0 <= i < j < |log| && log[i].Convert? ==> log[j] != Event.Claim(log[i].token)
  }

  predicate OneClaimant(s: State)
  {
    forall v, w :: v in s.busy && w in s.busy && v != w ==> s.busy[v].token != s.busy[w].token
  }

  ghost predicate Safe(s: State)
  {
    OneClaimant(s) && AtMostOnce(s.log) && NoLateClaim(s.log)
  }

  /** As long as it is in the table, a held or mailed cart has its flag set, an ordered one is marked so. */
  ghost predicate Flagged(s: State)
  {
    && (forall w :: w in s.busy ==> (s.busy[w].Accepted? <==> Logged(s.log, Mail(s.busy[w].token))))
    && (forall t :: t in s.rows && MustStaySent(s, t) ==> s.rows[t].sent)
    && (forall t :: t in s.rows && Logged(s.log, Event.Convert(t)) ==> s.rows[t].converted)
  }

  ghost predicate MustStaySent(s: State, t: Token)
  {
    Logged(s.log, Mail(t)) || exists w :: w in s.busy && s.busy[w].token == t
  }

  ghost predicate Invariant(s: State)
  {
    Safe(s) && Flagged(s)
  }

  /** Nobody holds the cart, it was not mailed, and its buyer has not ordered. */
  ghost predicate Unspent(s: State, t: Token)
  {
    !MustStaySent(s, t) && !Logged(s.log, Event.Convert(t))
  }

  /** The two steps that write a fresh row must not do so for a cart with a history. */
  ghost predicate Harmless(s: State, step: Step)
  {
    match step
    case Capture(t, _) => t !in s.rows ==> Unspent(s, t)
    case Merge(t) => Offered(s, t) ==> Unspent(s, t)
    case _ => true
  }

  lemma LogGrows(log: seq<Event>, e: Event, x: Event)
    ensures Logged(log + [e], x) <==> Logged(log, x) || x == e
  {
    var grown := log + [e];
    assert grown[|log|] == e;
    if Logged(log, x) {
      var i :| 0 <= i < |log| && log[i] == x;
      assert grown[i] == x;
    }
    if Logged(grown, x) {
      var i :| 0 <= i < |grown| && grown[i] == x;
      assert i < |log| ==> log[i] == x;
    }
  }

  lemma LogStaysSafe(log: seq<Event>, e: Event)
    requires AtMostOnce(log) && NoLateClaim(log)
    requires e.Mail? ==> !Logged(log, e)
    requires e.Claim? ==> !Logged(log, Event.Convert(e.token))
    ensures AtMostOnce(log + [e]) && NoLateClaim(log + [e])
  {
    var grown := log + [e];
    forall i, j | 0 <= i < j < |grown|
      ensures grown[i].Mail? ==> grown[i] != grown[j]
      ensures grown[i].Convert? ==> grown[j] != Event.Claim(grown[i].token)
    {
      assert grown[i] == log[i];
    }
  }

  lemma ClaimKeeps(s: State, w: nat, t: Token)
    requires Invariant(s)
    ensures Invariant(NextHere(s, TryClaim(w, t)))
  {
    var s' := NextHere(s, TryClaim(w, t));
    if s' != s {
      forall x ensures Logged(s'.log, x) <==> Logged(s.log, x) || x == Event.Claim(t) {
        LogGrows(s.log, Event.Claim(t), x);
      }
      LogStaysSafe(s.log, Event.Claim(t));
      assert !MustStaySent(s, t);
      forall v | v in s.busy ensures s.busy[v].token != t {
        assert s.busy[v].token == t ==> MustStaySent(s, t);
      }
      forall u | MustStaySent(s', u) ensures u == t || MustStaySent(s, u) {
        if v :| v in s'.busy && s'.busy[v].token == u {
          assert v != w ==> s.busy[v].token == u;
        }
      }
    }
  }

  lemma SendKeeps(s: State, w: nat, ok: bool)
    requires Invariant(s)
    ensures Invariant(NextHere(s, Send(w, ok)))
  {
    var s' := NextHere(s, Send(w, ok));
    if s' != s {
      var t := s.busy[w].token;
      if ok {
        forall x ensures Logged(s'.log, x) <==> Logged(s.log, x) || x == Mail(t) {
          LogGrows(s.log, Mail(t), x);
        }
        LogStaysSafe(s.log, Mail(t));
      }
      forall u | MustStaySent(s', u) ensures MustStaySent(s, u) {
        if v :| v in s'.busy && s'.busy[v].token == u {
          assert s.busy[v].token == u;
        } else {
          assert s.busy[w].token == t;
        }
      }
    }
  }

  lemma LeaveKeeps(s: State, step: Step)
    requires Invariant(s) && (step.Finish? || step.Crash?)
    ensures Invariant(NextHere(s, step))
  {
    var s' := NextHere(s, step);
    if s' != s && step.worker in s.busy {
      var t := s.busy[step.worker].token;
      forall u | u in s'.rows && MustStaySent(s', u) ensures s'.rows[u].sent {
        if v :| v in s'.busy && s'.busy[v].token == u {
          assert s.busy[v].token == u && v != step.worker;
        }
        assert MustStaySent(s, u);
      }
    }
  }

  lemma TableKeeps(s: State, step: Step)
    requires Invariant(s) && (step.CloseInvalid? || step.Purge?)
    ensures Invariant(NextHere(s, step))
  {
    var s' := NextHere(s, step);
    forall u ensures MustStaySent(s', u) <==> MustStaySent(s, u) {
    }
  }

  lemma CompleteKeeps(s: State, t: Token, mirrored: bool)
    requires Invariant(s)
    ensures Invariant(NextHere(s, Complete(t, mirrored)))
  {
    var s' := NextHere(s, Complete(t, mirrored));
    forall x ensures Logged(s'.log, x) <==> Logged(s.log, x) || x == Event.Convert(t) {
      LogGrows(s.log, Event.Convert(t), x);
    }
    LogStaysSafe(s.log, Event.Convert(t));
    forall u ensures MustStaySent(s', u) <==> MustStaySent(s, u) {
    }
  }

  /** A fresh row for a cart keeps the invariant if and only if the cart has no history. */
  lemma FreshRowKeepsIff(s: State, t: Token)
    requires Invariant(s)
    ensures Invariant(s.(rows := s.rows[t := FRESH])) <==> Unspent(s, t)
  {
    var s' := s.(rows := s.rows[t := FRESH]);
    forall u ensures MustStaySent(s', u) <==> MustStaySent(s, u) {
    }
    assert s'.rows[t] == FRESH;
  }

  /** The remote copy takes no part in the invariant. */
  lemma RemoteTakesNoPart(s: State, remote: map<Token, Row>)
    ensures Invariant(s.(remote := remote)) <==> Invariant(s)
  {
    var s' := s.(remote := remote);
    forall u ensures MustStaySent(s', u) <==> MustStaySent(s, u) {
    }
  }

  /** For every state and step, the invariant survives exactly the harmless steps. */
  lemma StepKeepsIff(s: State, step: Step)
    requires Invariant(s)
    ensures Invariant(Next(s, step)) <==> Harmless(s, step)
  {
    RemoteTakesNoPart(NextHere(s, step), NextRemote(s, step));
    match step
    case TryClaim(w, t) => ClaimKeeps(s, w, t);
    case Send(w, ok) => SendKeeps(s, w, ok);
    case Finish(_, _) => LeaveKeeps(s, step);
    case Crash(_) => LeaveKeeps(s, step);
    case Capture(t, _) => FreshRowKeepsIff(s, t);
    case CloseInvalid(_, _) => TableKeeps(s, step);
    case Purge(_, _) => TableKeeps(s, step);
    case Complete(t, mirrored) => CompleteKeeps(s, t, mirrored);
    case Merge(t) => FreshRowKeepsIff(s, t);
    case Elsewhere(_, _) =>
  }

  /** In every interleaving: one claimant and one accepted mail a cart, claimed while unconverted. */
  lemma {:induction false} EveryRunIsSafe(steps: seq<Step>)
    requires forall n :: 0 <= n < |steps| ==> Harmless(Run(START, steps[..n]), steps[n])
    ensures Invariant(Run(START, steps)) && Safe(Run(START, steps))
  {
    var n := |steps|;
    if n > 0 {
      var front := steps[..n - 1];
      forall k | 0 <= k < n - 1 ensures Harmless(Run(START, front[..k]), front[k]) {
        assert front[..k] == steps[..k];
        assert Harmless(Run(START, steps[..k]), steps[k]);
      }
      EveryRunIsSafe(front);
      assert Harmless(Run(START, steps[..n - 1]), steps[n - 1]);
      StepKeepsIff(Run(START, front), steps[n - 1]);
    }
  }

  // ------------------------------------------------------------ one machine by itself

  /** No copy leaves or enters this machine, and no cart row is deleted. */
  predicate StaysHere(step: Step)
  {
    match step
    case Finish(_, mirrored) => !mirrored
    case Capture(_, mirrored) => !mirrored
    case Complete(_, mirrored) => !mirrored
    case CloseInvalid(_, mirrored) => !mirrored
    case Purge(_, _) => false
    case Elsewhere(_, _) => false
    case _ => true
  }

  predicate Captured(steps: seq<Step>, t: Token)
  {
    exists k :: 0 <= k < |steps| && steps[k].Capture? && steps[k].token == t
  }

  predicate Completed(steps: seq<Step>, t: Token)
  {
    exists k :: 0 <= k < |steps| && steps[k].Complete? && steps[k].token == t
  }

  /** The n-th step captures for the first time a cart whose buyer has ordered already. */
  predicate CapturesLate(steps: seq<Step>, n: nat)
    requires n < |steps|
  {
    steps[n].Capture? && Completed(steps[..n], steps[n].token) && !Captured(steps[..n], steps[n].token)
  }

  predicate NoneLate(steps: seq<Step>)
  {
    forall n :: 0 <= n < |steps| ==> !CapturesLate(steps, n)
  }

  /** The table holds what was captured, the log what was completed; held and mailed carts are in the table. */
  ghost predicate Tracks(s: State, steps: seq<Step>)
  {
    && s.remote == map[]
    && (forall t :: t in s.rows <==> Captured(steps, t))
    && (forall t :: Logged(s.log, Event.Convert(t)) <==> Completed(steps, t))
    && (forall t :: MustStaySent(s, t) ==> t in s.rows)
  }

  lemma StepsGrow(steps: seq<Step>, step: Step, t: Token)
    ensures Captured(steps + [step], t) <==> Captured(steps, t) || (step.Capture? && step.token == t)
    ensures Completed(steps + [step], t) <==> Completed(steps, t) || (step.Complete? && step.token == t)
  {
    var grown := steps + [step];
    assert grown[|steps|] == step;
    if k :| 0 <= k < |steps| && steps[k].Capture? && steps[k].token == t {
      assert grown[k] == steps[k];
    }
    if k :| 0 <= k < |steps| && steps[k].Complete? && steps[k].token == t {
      assert grown[k] == steps[k];
    }
  }

  lemma TracksOn(s: State, steps: seq<Step>, step: Step)
    requires Tracks(s, steps) && StaysHere(step)
    ensures Tracks(Next(s, step), steps + [step])
  {
    var s' := Next(s, step);
    forall t
      ensures t in s'.rows <==> Captured(steps + [step], t)
      ensures Logged(s'.log, Event.Convert(t)) <==> Completed(steps + [step], t)
      ensures MustStaySent(s', t) ==> t in s'.rows
    {
      StepsGrow(steps, step, t);
      if |s'.log| > |s.log| {
        LogGrows(s.log, s'.log[|s.log|], Event.Convert(t));
      }
      OnlyRowsAreSpent(s, step, t);
    }
  }

  /** A step makes only a cart in the table held or mailed. */
  lemma OnlyRowsAreSpent(s: State, step: Step, t: Token)
    requires s.remote == map[] && (MustStaySent(s, t) ==> t in s.rows)
    ensures MustStaySent(Next(s, step), t) ==> t in s.rows
  {
    var s' := Next(s, step);
    if w :| w in s'.busy && s'.busy[w].token == t {
      if w in s.busy && s.busy[w].token == t {
        assert MustStaySent(s, t);
      }
    } else if Logged(s'.log, Mail(t)) {
      if |s'.log| > |s.log| {
        LogGrows(s.log, s'.log[|s.log|], Mail(t));
      }
      if step.Send? && step.worker in s.busy && s.busy[step.worker].token == t {
        assert MustStaySent(s, t);
      }
    }
  }

  lemma {:induction false} LocalRunTracks(steps: seq<Step>)
    requires forall n :: 0 <= n < |steps| ==> StaysHere(steps[n])
    ensures Tracks(Run(START, steps), steps)
  {
    var n := |steps|;
    if n > 0 {
      LocalRunTracks(steps[..n - 1]);
      TracksOn(Run(START, steps[..n - 1]), steps[..n - 1], steps[n - 1]);
      assert steps[..n - 1] + [steps[n - 1]] == steps;
    }
  }

  /** On one machine that deletes no cart a step is harmless exactly if it is no late capture. */
  lemma LocalStepIsHarmlessIff(steps: seq<Step>, n: nat)
    requires n < |steps| && forall k :: 0 <= k < |steps| ==> StaysHere(steps[k])
    ensures Harmless(Run(START, steps[..n]), steps[n]) <==> !CapturesLate(steps, n)
  {
    LocalRunTracks(steps[..n]);
  }

  /**
    On one machine that deletes no cart the promises hold, in every run none of
    whose orders is completed before its cart is first captured.
  */
  lemma LocalRunsAreSafe(steps: seq<Step>)
    requires NoneLate(steps) && forall n :: 0 <= n < |steps| ==> StaysHere(steps[n])
    ensures Safe(Run(START, steps)) && Invariant(Run(START, steps))
  {
    forall n | 0 <= n < |steps| ensures Harmless(Run(START, steps[..n]), steps[n]) {
      LocalStepIsHarmlessIff(steps, n);
    }
    EveryRunIsSafe(steps);
  }

  /** And exactly in those: a late capture leaves a cart that any idle worker then claims against the promise. */
  lemma LocalRunsAreSafeIff(steps: seq<Step>)
    requires forall n :: 0 <= n < |steps| ==> StaysHere(steps[n])
    ensures (forall k :: 0 <= k <= |steps| ==> Invariant(Run(START, steps[..k]))) <==> NoneLate(steps)
  {
    if NoneLate(steps) {
      forall k | 0 <= k <= |steps| ensures Invariant(Run(START, steps[..k])) {
        PrefixNoneLate(steps, k);
        LocalRunsAreSafe(steps[..k]);
      }
    } else {
      var n :| 0 <= n < |steps| && CapturesLate(steps, n);
      LocalStepIsHarmlessIff(steps, n);
      assert steps[..n + 1][..n] == steps[..n] && steps[..n + 1][n] == steps[n];
      if Invariant(Run(START, steps[..n])) {
        StepKeepsIff(Run(START, steps[..n]), steps[n]);
        assert !Invariant(Run(START, steps[..n + 1]));
      }
    }
  }

  lemma PrefixNoneLate(steps: seq<Step>, k: nat)
    requires NoneLate(steps) && k <= |steps|
    ensures NoneLate(steps[..k])
  {
    forall n | 0 <= n < k ensures !CapturesLate(steps[..k], n) {
      assert steps[..k][..n] == steps[..n];
      assert !CapturesLate(steps, n);
    }
  }

  /** After a late capture, whoever is idle claims the cart of a buyer who has paid. */
  lemma LateCaptureIsClaimed(steps: seq<Step>, n: nat, w: nat)
    requires n < |steps| && CapturesLate(steps, n) && forall k :: 0 <= k < |steps| ==> StaysHere(steps[k])
    requires w !in Run(START, steps[..n + 1]).busy
    ensures !NoLateClaim(Next(Run(START, steps[..n + 1]), TryClaim(w, steps[n].token)).log)
  {
    var t := steps[n].token;
    var s := Run(START, steps[..n]);
    LocalRunTracks(steps[..n]);
    assert steps[..n + 1][..n] == steps[..n] && steps[..n + 1][n] == steps[n];
    var after := Next(s, steps[n]);
    assert after.rows[t] == FRESH && after.log == s.log;
    var i :| 0 <= i < |s.log| && s.log[i] == Event.Convert(t);
    var log := Next(after, TryClaim(w, t)).log;
    assert log[i] == Event.Convert(t) && log[|s.log|] == Event.Claim(t);
  }

  /** The shortest such run: the order first, its queued capture next, and a worker claims it. */
  lemma OrderBeforeCaptureIsClaimed(t: Token)
    ensures StaysHere(Complete(t, false)) && StaysHere(Capture(t, false)) && StaysHere(TryClaim(0, t))
    ensures var s := Step3(START, Complete(t, false), Capture(t, false), TryClaim(0, t));
            s.log == [Event.Convert(t), Event.Claim(t)] && !NoLateClaim(s.log)
  {
    var s := Step3(START, Complete(t, false), Capture(t, false), TryClaim(0, t));
    assert s.log == [Event.Convert(t), Event.Claim(t)];
    assert s.log[0].Convert? && s.log[1] == Event.Claim(s.log[0].token);
  }

  /** A cart not in the table can be captured exactly if nobody holds it, it was not mailed and not ordered. */
  lemma NewCartIsHarmlessIff(s: State, t: Token, mirrored: bool)
    requires t !in s.rows && (MustStaySent(s, t) ==> t in s.rows)
    ensures Harmless(s, Capture(t, mirrored)) <==> !Logged(s.log, Event.Convert(t))
  {
  }

  /** A refused mail leaves the cart as it was found: it can be claimed again. */
  lemma RefusalIsUndone(s: State, w: nat, t: Token, mirrored: bool)
    requires w !in s.busy && t in s.rows && s.rows[t] == FRESH
    ensures var after := Next(Next(Next(s, TryClaim(w, t)), Send(w, false)), Finish(w, mirrored));
            after.rows == s.rows && after.busy == s.busy && after.remote == s.remote
  {
    var claimed := Next(s, TryClaim(w, t));
    var refused := Next(claimed, Send(w, false));
    var after := Next(refused, Finish(w, mirrored));
    assert after.rows[t] == s.rows[t];
    assert after.busy == s.busy;
  }

  // ------------------------------------------------------------- due here, due there

  predicate Holds(s: State, w: nat, t: Token)
  {
    w in s.busy && s.busy[w].token == t
  }

  predicate Held(s: State, t: Token)
  {
    exists w :: w in s.busy && Holds(s, w, t)
  }

  /** The local table shows the cart as due: a worker may claim it. */
  predicate Due(s: State, t: Token)
  {
    t in s.rows && s.rows[t] == FRESH
  }

  /** A new cart, a due row read from the remote table, or a reminder that was refused. */
  predicate BecomesDue(s: State, step: Step, t: Token)
  {
    match step
    case Capture(u, _) => u == t && t !in s.rows
    case Merge(u) => u == t && Offered(s, t)
    case Finish(w, _) => w in s.busy && s.busy[w] == Refused(t) && t in s.rows && !s.rows[t].converted
    case _ => false
  }

  /** Claimed, ordered, closed for its invalid address, or deleted. */
  predicate CeasesDue(s: State, step: Step, t: Token)
  {
    match step
    case TryClaim(w, u) => u == t && w !in s.busy
    case Complete(u, _) => u == t
    case CloseInvalid(u, _) => u == t
    case Purge(u, _) => u == t
    case _ => false
  }

  /** For every state and step, when a cart is due on this machine. */
  lemma DueIff(s: State, step: Step, t: Token)
    ensures Due(Next(s, step), t) <==> BecomesDue(s, step, t) || (Due(s, t) && !CeasesDue(s, step, t))
  {
  }

  /** The remote copy is made due by a mirrored capture of a due or new cart, or by another machine. */
  predicate BecomesOffered(s: State, step: Step, t: Token)
  {
    match step
    case Capture(u, mirrored) => u == t && mirrored && (t !in s.rows || Due(s, t))
    case Elsewhere(u, row) => u == t && row == FRESH
    case _ => false
  }

  /** Its mail was accepted, it was ordered, closed or deleted, and that was mirrored; or another copy replaced it. */
  predicate CeasesOffered(s: State, step: Step, t: Token)
  {
    match step
    case Finish(w, mirrored) => mirrored && w in s.busy && s.busy[w] == Accepted(t)
    case Complete(u, mirrored) => u == t && mirrored
    case CloseInvalid(u, mirrored) => u == t && mirrored
    case Purge(u, mirrored) => u == t && mirrored
    case Capture(u, mirrored) => u == t && mirrored
    case Elsewhere(u, _) => u == t
    case _ => false
  }

  /** For every state and step, when the remote table offers a cart to all machines. */
  lemma OfferedIff(s: State, step: Step, t: Token)
    ensures Offered(Next(s, step), t) <==> BecomesOffered(s, step, t) || (Offered(s, t) && !CeasesOffered(s, step, t))
  {
  }

  /** What was withdrawn from the remote table stays so until it is captured anew or another machine writes it. */
  lemma {:induction false} StaysWithdrawn(s: State, steps: seq<Step>, t: Token)
    requires !Offered(s, t)
    requires forall n :: 0 <= n < |steps| ==>
               !(steps[n].Capture? && steps[n].token == t) && !(steps[n].Elsewhere? && steps[n].token == t)
    ensures !Offered(Run(s, steps), t)
  {
    var n := |steps|;
    if n > 0 {
      StaysWithdrawn(s, steps[..n - 1], t);
      OfferedIff(Run(s, steps[..n - 1]), steps[n - 1], t);
    }
  }

  // ---------------------------------------------------------------- a mirror that works

  /** A worker that leaves with its mail accepted leaves no remote copy that says otherwise. */
  predicate LeavesWord(s: State, w: nat, mirrored: bool)
  {
    w in s.busy && s.busy[w].Accepted? && s.busy[w].token in s.remote ==>
      mirrored || s.remote[s.busy[w].token].sent
  }

  /**
    Accepted mails and orders reach the remote table, no worker dies in between, and
    no other machine undoes that; no due copy of a held cart is read, no mailed or
    held cart is deleted, and no cart is first captured once ordered.
  */
  ghost predicate MirrorsWell(s: State, step: Step)
  {
    match step
    case Finish(w, mirrored) => LeavesWord(s, w, mirrored)
    case Crash(w) => LeavesWord(s, w, false)
    case Complete(t, mirrored) => t in s.remote ==> mirrored || s.remote[t].converted
    case Merge(t) => Offered(s, t) ==> !Held(s, t)
    case Capture(t, _) => t !in s.rows ==> !Logged(s.log, Event.Convert(t))
    case Purge(t, _) => !MustStaySent(s, t)
    case Elsewhere(t, row) =>
      (Logged(s.log, Event.Convert(t)) ==> row.converted) && (Logged(s.log, Mail(t)) ==> row.sent || Held(s, t))
    case _ => true
  }

  /** The remote table knows every order and, but for a worker about to say so, every mail. */
  ghost predicate MirrorTrue(s: State)
  {
    forall t ::
      && (Logged(s.log, Mail(t)) || Held(s, t) ==> t in s.rows)
      && (t in s.remote && Logged(s.log, Event.Convert(t)) ==> s.remote[t].converted)
      && (t in s.remote && Logged(s.log, Mail(t)) ==> s.remote[t].sent || Held(s, t))
  }

  /** Whoever holds a mailed cart has had the mail accepted. */
  lemma HolderAccepted(s: State, t: Token) returns (w: nat)
    requires Invariant(s) && Held(s, t) && Logged(s.log, Mail(t))
    ensures w in s.busy && s.busy[w] == Accepted(t)
  {
    w :| w in s.busy && Holds(s, w, t);
  }

  /** A worker lets go of a mailed cart only by finishing it. */
  lemma HoldsOn(s: State, step: Step, t: Token)
    requires Invariant(s) && MirrorsWell(s, step) && Held(s, t) && Logged(s.log, Mail(t))
    ensures Held(Next(s, step), t)
            || ((step.Finish? || step.Crash?) && step.worker in s.busy && s.busy[step.worker] == Accepted(t))
  {
    var w := HolderAccepted(s, t);
    if !((step.Finish? || step.Crash?) && step.worker == w) {
      assert Holds(Next(s, step), w, t);
    }
  }

  lemma NewMailIsHeld(s: State, step: Step, t: Token)
    requires Logged(Next(s, step).log, Mail(t)) && !Logged(s.log, Mail(t))
    ensures Held(s, t) && Held(Next(s, step), t)
  {
    LogGrows(s.log, Next(s, step).log[|s.log|], Mail(t));
    assert Holds(s, step.worker, t) && Holds(Next(s, step), step.worker, t);
  }

  lemma MirrorSent(s: State, step: Step, t: Token)
    requires Invariant(s) && MirrorTrue(s) && MirrorsWell(s, step)
    requires t in Next(s, step).remote && Logged(Next(s, step).log, Mail(t))
    ensures Next(s, step).remote[t].sent || Held(Next(s, step), t)
  {
    if !Logged(s.log, Mail(t)) {
      NewMailIsHeld(s, step, t);
    } else {
      assert MustStaySent(s, t);
      if Held(s, t) {
        HoldsOn(s, step, t);
      }
    }
  }

  lemma MirrorKeepsRows(s: State, step: Step, t: Token)
    requires MirrorTrue(s) && MirrorsWell(s, step)
    ensures Logged(Next(s, step).log, Mail(t)) || Held(Next(s, step), t) ==> t in Next(s, step).rows
  {
    var s' := Next(s, step);
    if Logged(s'.log, Mail(t)) && !Logged(s.log, Mail(t)) {
      NewMailIsHeld(s, step, t);
    }
    if w :| w in s'.busy && Holds(s', w, t) {
      assert w in s.busy && s.busy[w].token == t ==> Holds(s, w, t) && MustStaySent(s, t);
    }
  }

  lemma MirrorKeeps(s: State, step: Step)
    requires Invariant(s) && MirrorTrue(s) && MirrorsWell(s, step)
    ensures Harmless(s, step) && MirrorTrue(Next(s, step))
  {
    var s' := Next(s, step);
    forall t
      ensures Logged(s'.log, Mail(t)) || Held(s', t) ==> t in s'.rows
      ensures t in s'.remote && Logged(s'.log, Event.Convert(t)) ==> s'.remote[t].converted
      ensures t in s'.remote && Logged(s'.log, Mail(t)) ==> s'.remote[t].sent || Held(s', t)
    {
      MirrorKeepsRows(s, step, t);
      if t in s'.remote && Logged(s'.log, Mail(t)) {
        MirrorSent(s, step, t);
      }
      if |s'.log| > |s.log| {
        LogGrows(s.log, s'.log[|s.log|], Event.Convert(t));
      }
    }
    if step.Capture? || step.Merge? {
      assert MustStaySent(s, step.token) ==> Logged(s.log, Mail(step.token)) || Held(s, step.token) by {
        if w :| w in s.busy && s.busy[w].token == step.token {
          assert Holds(s, w, step.token);
        }
      }
    }
  }

  /** Nobody else holds what a worker holds: once it leaves, the cart is held by no one. */
  lemma NobodyHolds(s: State, step: Step, w: nat)
    requires Invariant(s) && w in s.busy && (step == Crash(w) || (step.Finish? && step.worker == w))
    requires !s.busy[w].Claimed?
    ensures !Held(Next(s, step), s.busy[w].token)
  {
    var t := s.busy[w].token;
    forall v | v in Next(s, step).busy ensures !Holds(Next(s, step), v, t) {
      assert v in s.busy && v != w;
    }
  }

  lemma MirrorBreaks(s: State, step: Step)
    requires Invariant(s) && MirrorTrue(s) && !MirrorsWell(s, step)
    ensures !Invariant(Next(s, step)) || !MirrorTrue(Next(s, step))
  {
    var s' := Next(s, step);
    match step
    case Finish(w, _) => NobodyHolds(s, step, w);
    case Crash(w) => NobodyHolds(s, step, w);
    case Complete(t, _) => LogGrows(s.log, Event.Convert(t), Event.Convert(t));
    case Merge(t) => HeldIsSpent(s, t); StepKeepsIff(s, step);
    case Capture(t, _) => StepKeepsIff(s, step);
    case Purge(t, _) => PurgedIsSpent(s, step);
    case Elsewhere(t, _) => assert Held(s', t) ==> Held(s, t) by {
        if w :| w in s'.busy && Holds(s', w, t) {
          assert Holds(s, w, t);
        }
      }
  }

  lemma HeldIsSpent(s: State, t: Token)
    requires Held(s, t)
    ensures MustStaySent(s, t)
  {
    var w :| w in s.busy && Holds(s, w, t);
    assert s.busy[w].token == t;
  }

  lemma PurgedIsSpent(s: State, step: Step)
    requires step.Purge? && MustStaySent(s, step.token)
    ensures !MirrorTrue(Next(s, step))
  {
    var s', t := Next(s, step), step.token;
    if w :| w in s.busy && s.busy[w].token == t {
      assert Holds(s', w, t);
    }
    assert t !in s'.rows && (Logged(s'.log, Mail(t)) || Held(s', t));
  }

  /** For every state and step, the remote table and the promises stay true exactly if the step mirrors well. */
  lemma MirrorKeepsIff(s: State, step: Step)
    requires Invariant(s) && MirrorTrue(s)
    ensures Invariant(Next(s, step)) && MirrorTrue(Next(s, step)) <==> MirrorsWell(s, step)
  {
    if MirrorsWell(s, step) {
      MirrorKeeps(s, step);
      StepKeepsIff(s, step);
    } else {
      MirrorBreaks(s, step);
    }
  }

  /**
    With a mirror that works no page read brings back a mailed or ordered cart: in
    every such run one claimant and one accepted mail a cart, claimed while unordered.
  */
  lemma {:induction false} MirroredRunsAreSafe(steps: seq<Step>)
    requires forall n :: 0 <= n < |steps| ==> MirrorsWell(Run(START, steps[..n]), steps[n])
    ensures Safe(Run(START, steps)) && Invariant(Run(START, steps)) && MirrorTrue(Run(START, steps))
  {
    var n := |steps|;
    if n > 0 {
      var front := steps[..n - 1];
      forall k | 0 <= k < n - 1 ensures MirrorsWell(Run(START, front[..k]), front[k]) {
        assert front[..k] == steps[..k];
        assert MirrorsWell(Run(START, steps[..k]), steps[k]);
      }
      MirroredRunsAreSafe(front);
      assert MirrorsWell(Run(START, steps[..n - 1]), steps[n - 1]);
      MirrorKeepsIff(Run(START, front), steps[n - 1]);
    }
  }

  // ------------------------------------------------------------------- the unsafe steps

  function Step3(s: State, a: Step, b: Step, c: Step): State
  {
    Next(Next(Next(s, a), b), c)
  }

  /**
    No step but ordinary ones: a cart is captured and mirrored, one worker claims it,
    another reads a page, which brings the unclaimed remote row back, claims it too,
    and both mails are accepted.
  */
  lemma PageReadClearsClaim(t: Token)
    ensures var claimed := Step3(START, Capture(t, true), TryClaim(0, t), Merge(t));
            var twice := Step3(claimed, TryClaim(1, t), Send(0, true), Send(1, true));
            && !OneClaimant(Next(claimed, TryClaim(1, t))) && !AtMostOnce(twice.log)
  {
    var claimed := Step3(START, Capture(t, true), TryClaim(0, t), Merge(t));
    var both := Next(claimed, TryClaim(1, t));
    assert both.busy == map[0 := Claimed(t), 1 := Claimed(t)];
    assert both.busy[0].token == both.busy[1].token;
    var twice := Next(Next(both, Send(0, true)), Send(1, true));
    assert twice.log == [Event.Claim(t), Event.Claim(t), Mail(t), Mail(t)];
    assert twice.log[2] == twice.log[3];
  }

  /** A mailed cart whose order is deleted, and whose token is captured anew, is mailed again. */
  lemma PurgedCartIsMailedAgain(t: Token)
    ensures var once := Step3(Next(START, Capture(t, false)), TryClaim(0, t), Send(0, true), Finish(0, false));
            var anew := Step3(once, Purge(t, false), Capture(t, false), TryClaim(1, t));
            AtMostOnce(once.log) && !AtMostOnce(Next(anew, Send(1, true)).log)
  {
    var once := Step3(Next(START, Capture(t, false)), TryClaim(0, t), Send(0, true), Finish(0, false));
    assert once.log == [Event.Claim(t), Mail(t)] && once.busy == map[];
    var anew := Step3(once, Purge(t, false), Capture(t, false), TryClaim(1, t));
    var log := Next(anew, Send(1, true)).log;
    assert log == [Event.Claim(t), Mail(t), Event.Claim(t), Mail(t)];
    assert log[1] == log[3];
  }
}
