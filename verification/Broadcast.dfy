/**
  The broadcast dispatcher (api.py): passes over a persistent generator of
  recipients, a log per address, cancellation between and inside passes, and
  restarts that lose the generator but not the log.
*/
module Broadcast {
  import opened Basics
  import opened Wrappers

  const CHUNK := 10
  const PASSES_PER_JOB := 3
  const BUDGET: nat := CHUNK * PASSES_PER_JOB

  datatype Email = Email(address: string)

  datatype Mail = Mail(email: Email, ok: bool)

  datatype Status = Queued | Sending | Cancelled | Sent | Partial | Failed

  /** Where a broadcast has walked to, and the addresses it had reached before this walk. */
  datatype Stream = Stream(rest: seq<Email>, skip: set<Email>)

  /** log is the send log: the last outcome for every address; mails is what the provider saw. */
  datatype State = State(status: Status, log: map<Email, bool>, mails: seq<Mail>, stream: Option<Stream>)

  datatype Outcome = Stopped | Continues | Finished

  // ------------------------------------------------------------------------- one pass

  /** The dispatch loop under way. */
  datatype Walker = Walker(rest: seq<Email>, log: map<Email, bool>, mails: seq<Mail>, sent: nat, halted: bool)

  /** One recipient tried and logged. */
  function Tried(w: Walker, accepts: Email -> bool): Walker
    requires w.rest != []
  {
    var e := w.rest[0];
    Walker(w.rest[1..], w.log[e := accepts(e)], w.mails + [Mail(e, accepts(e))], w.sent + 1, w.halted)
  }

  /**
    The loop over the generator. The budget is tested only after the next address
    was pulled, so the address pulled by a pass that is full is gone.
  */
  function Walk(w: Walker, skip: set<Email>, accepts: Email -> bool, cancelAt: Option<nat>): Walker
    decreases |w.rest|
  {
    if w.rest == [] then w
    else if w.sent >= BUDGET then w.(rest := w.rest[1..])
    else if w.rest[0] in skip then Walk(w.(rest := w.rest[1..]), skip, accepts, cancelAt)
    else if cancelAt == Some(w.sent) then w.(rest := w.rest[1..], halted := true)
    else Walk(Tried(w, accepts), skip, accepts, cancelAt)
  }

  function SentIn(log: map<Email, bool>): set<Email>
  {
    set e | e in log && log[e]
  }

  /** The status a finished broadcast is given. */
  function FinalStatus(log: map<Email, bool>): Status
  {
    if forall e :: e in log ==> log[e] then Sent
    else if exists e :: e in log && log[e] then Partial
    else Failed
  }

  function StreamOf(s: State, recipients: seq<Email>): Stream
  {
    if s.stream.Some? then s.stream.value else Stream(recipients, SentIn(s.log))
  }

  /** One pass; an operator may cancel while it runs, seen just before the cancelAt-th attempt or at its end. */
  function AfterPass(s: State, recipients: seq<Email>, accepts: Email -> bool, cancelAt: Option<nat>): (State, Outcome)
  {
    if s.status == Cancelled then (s, Stopped)
    else
      var stream := StreamOf(s, recipients);
      var w := Walk(Walker(stream.rest, s.log, s.mails, 0, false), stream.skip, accepts, cancelAt);
      var status := if s.status == Queued then Sending else s.status;
      if w.halted || cancelAt == Some(w.sent) then (State(Cancelled, w.log, w.mails, None), Stopped)
      else if w.sent >= BUDGET
      then (State(status, w.log, w.mails, Some(Stream(w.rest, stream.skip))), Continues)
      else (State(FinalStatus(w.log), w.log, w.mails, None), Finished)
  }

  class Dispatcher {
    var status: Status
    var log: map<Email, bool>
    var mails: seq<Mail>
    var stream: Option<Stream>

    constructor ()
      ensures Now() == State(Queued, map[], [], None)
    {
      status, log, mails, stream := Queued, map[], [], None;
    }

    function Now(): State
      reads this
    {
      State(status, log, mails, stream)
    }

    /** Send the next pass of the broadcast. */
    method Dispatch(recipients: seq<Email>, accepts: Email -> bool, cancelAt: Option<nat>)
      returns (outcome: Outcome)
      modifies this
      ensures (Now(), outcome) == AfterPass(old(Now()), recipients, accepts, cancelAt)
    {
      if status == Cancelled {
        return Stopped;
      }
      if status == Queued {
        status := Sending;
      }
      if stream.None? {
        stream := Some(Stream(recipients, SentIn(log)));
      }
      var skip := stream.value.skip;
      var rest, sent, halted := SendSome(stream.value.rest, skip, accepts, cancelAt);
      stream := Some(Stream(rest, skip));
      if halted || cancelAt == Some(sent) {
        status, stream := Cancelled, None;
        return Stopped;
      }
      if sent >= BUDGET {
        return Continues;
      }
      stream := None;
      status := FinalStatus(log);
      return Finished;
    }

    /** Pull addresses and mail them, logging each one, until the budget, a cancellation or the end. */
    method SendSome(from: seq<Email>, skip: set<Email>, accepts: Email -> bool, cancelAt: Option<nat>)
      returns (rest: seq<Email>, sent: nat, halted: bool)
      modifies this`log, this`mails
      ensures Walker(rest, log, mails, sent, halted)
              == Walk(Walker(from, old(log), old(mails), 0, false), skip, accepts, cancelAt)
    {
      rest, sent, halted := from, 0, false;
      ghost var goal := Walk(Walker(from, log, mails, 0, false), skip, accepts, cancelAt);
      var full := false;
      while rest != [] && !halted && !full
        invariant if halted || full then goal == Walker(rest, log, mails, sent, halted)
                  else goal == Walk(Walker(rest, log, mails, sent, false), skip, accepts, cancelAt)
        decreases |rest|
      {
        var email := rest[0];
        rest := rest[1..];
        if sent >= BUDGET {
          full := true;
        } else if email !in skip {
          if cancelAt == Some(sent) {
            halted := true;
          } else {
            var ok := accepts(email);
            mails := mails + [Mail(email, ok)];
            log := log[email := ok];
            sent := sent + 1;
          }
        }
      }
    }
  }

  // ----------------------------------------------------------------- never mailed twice

  datatype Step = Pass(recipients: seq<Email>, accepts: Email -> bool, cancelAt: Option<nat>)
                | Restart
                | Cancel
                | Requeue
                | CrashBeforeLog(email: Email)

  /** A crash between mail and log leaves an accepted mail that nothing remembers. */
  function Next(s: State, step: Step): State
  {
    match step
    case Pass(recipients, accepts, cancelAt) => AfterPass(s, recipients, accepts, cancelAt).0
    case Restart => s.(stream := None)
    case Cancel => s.(status := Cancelled)
    case Requeue => s.(status := Queued)
    case CrashBeforeLog(e) => s.(mails := s.mails + [Mail(e, true)], stream := None)
  }

  function Run(s: State, steps: seq<Step>): State
  {
    if |steps| == 0 then s else Next(Run(s, steps[..|steps| - 1]), steps[|steps| - 1])
  }

  const FRESH := State(Queued, map[], [], None)

  /** An address that took the mail is not mailed again. */
  predicate RepeatFree(mails: seq<Mail>)
  {
    forall i, j :: 0 <= i < j < |mails| && mails[i].ok ==> mails[j].email != mails[i].email
  }

  /** The log knows every mail, and of the accepted ones that they were. */
  predicate Remembered(mails: seq<Mail>, log: map<Email, bool>)
  {
    forall i :: 0 <= i < |mails| ==> mails[i].email in log && (mails[i].ok ==> log[mails[i].email])
  }

  /** Whoever is logged was mailed, and whoever is logged as reached took a mail. */
  ghost predicate Backed(mails: seq<Mail>, log: map<Email, bool>)
  {
    forall e :: e in log ==> Mailed(mails, e) && (log[e] ==> Took(mails, e))
  }

  predicate Took(mails: seq<Mail>, e: Email)
  {
    exists i :: 0 <= i < |mails| && mails[i] == Mail(e, true)
  }

  predicate Mailed(mails: seq<Mail>, e: Email)
  {
    exists i :: 0 <= i < |mails| && mails[i].email == e
  }

  /** Whoever is still to come and was reached before is to be skipped. */
  predicate Ahead(rest: seq<Email>, skip: set<Email>, log: map<Email, bool>)
  {
    Distinct(rest) && forall i :: 0 <= i < |rest| && rest[i] in log && log[rest[i]] ==> rest[i] in skip
  }

  ghost predicate Valid(s: State)
  {
    RepeatFree(s.mails) && Remembered(s.mails, s.log) && Backed(s.mails, s.log)
    && (s.stream.Some? ==> Ahead(s.stream.value.rest, s.stream.value.skip, s.log))
  }

  lemma TriedKeeps(w: Walker, skip: set<Email>, accepts: Email -> bool)
    requires w.rest != [] && w.rest[0] !in skip
    requires RepeatFree(w.mails) && Remembered(w.mails, w.log) && Backed(w.mails, w.log) && Ahead(w.rest, skip, w.log)
    ensures var t := Tried(w, accepts);
            RepeatFree(t.mails) && Remembered(t.mails, t.log) && Backed(t.mails, t.log) && Ahead(t.rest, skip, t.log)
  {
    var t := Tried(w, accepts);
    forall i | 0 <= i < |w.mails| && w.mails[i].ok ensures w.mails[i].email != w.rest[0] {
      assert w.rest[0] == w.rest[0];
    }
    forall i | 0 <= i < |t.mails|
      ensures t.mails[i].email in t.log && (t.mails[i].ok ==> t.log[t.mails[i].email])
    {
      assert i < |w.mails| ==> t.mails[i] == w.mails[i];
    }
    forall e | e in t.log ensures Mailed(t.mails, e) && (t.log[e] ==> Took(t.mails, e)) {
      if e == w.rest[0] {
        assert t.mails[|w.mails|] == Mail(e, accepts(e));
      } else {
        TookGrows(w.mails, t.mails[|w.mails|], e);
      }
    }
  }

  lemma TookGrows(mails: seq<Mail>, m: Mail, e: Email)
    ensures Took(mails, e) ==> Took(mails + [m], e)
    ensures Mailed(mails, e) ==> Mailed(mails + [m], e)
  {
    if i :| 0 <= i < |mails| && mails[i].email == e {
      assert (mails + [m])[i].email == e;
    }
    if i :| 0 <= i < |mails| && mails[i] == Mail(e, true) {
      assert (mails + [m])[i] == Mail(e, true);
    }
  }

  lemma {:induction false} WalkKeeps(w: Walker, skip: set<Email>, accepts: Email -> bool, cancelAt: Option<nat>)
    requires RepeatFree(w.mails) && Remembered(w.mails, w.log) && Backed(w.mails, w.log) && Ahead(w.rest, skip, w.log)
    ensures var after := Walk(w, skip, accepts, cancelAt);
            && RepeatFree(after.mails) && Remembered(after.mails, after.log) && Backed(after.mails, after.log)
            && Ahead(after.rest, skip, after.log)
    decreases |w.rest|
  {
    if w.rest != [] && w.sent < BUDGET {
      if w.rest[0] in skip {
        WalkKeeps(w.(rest := w.rest[1..]), skip, accepts, cancelAt);
      } else if cancelAt != Some(w.sent) {
        TriedKeeps(w, skip, accepts);
        WalkKeeps(Tried(w, accepts), skip, accepts, cancelAt);
      }
    }
  }

  /** The recipients of a pass are a list without repeats. */
  predicate WellFormed(step: Step)
  {
    step.Pass? ==> Distinct(step.recipients)
  }

  /** For every state and step: the log stays true to the mails exactly if the step is no crash before the log. */
  lemma StepKeepsValidIff(s: State, step: Step)
    requires Valid(s) && WellFormed(step)
    ensures Valid(Next(s, step)) <==> !step.CrashBeforeLog?
  {
    match step
    case Pass(recipients, accepts, cancelAt) =>
      if s.status != Cancelled {
        var stream := StreamOf(s, recipients);
        WalkKeeps(Walker(stream.rest, s.log, s.mails, 0, false), stream.skip, accepts, cancelAt);
      }
    case CrashBeforeLog(e) => UnloggedMailBreaks(s, e);
    case _ =>
  }

  /** A mail the log misses is either forgotten by it or a repeat already. */
  lemma UnloggedMailBreaks(s: State, e: Email)
    requires Valid(s)
    ensures !Valid(Next(s, CrashBeforeLog(e)))
  {
    var mails := Next(s, CrashBeforeLog(e)).mails;
    assert mails[|s.mails|] == Mail(e, true);
    if e in s.log && s.log[e] {
      assert Took(s.mails, e);
      var i :| 0 <= i < |s.mails| && s.mails[i] == Mail(e, true);
      assert mails[i].ok && mails[|s.mails|].email == mails[i].email;
    }
  }

  /** Across passes, restarts, cancellations and re-queues, no address that took the mail is mailed again. */
  lemma {:induction false} NoRunRepeats(steps: seq<Step>)
    requires forall n :: 0 <= n < |steps| ==> WellFormed(steps[n]) && !steps[n].CrashBeforeLog?
    ensures Valid(Run(FRESH, steps)) && RepeatFree(Run(FRESH, steps).mails)
  {
    var n := |steps|;
    if n > 0 {
      NoRunRepeats(steps[..n - 1]);
      StepKeepsValidIff(Run(FRESH, steps[..n - 1]), steps[n - 1]);
    }
  }

  /** Between mail and log there is no protection: a crash there gets the address mailed twice. */
  lemma CrashBeforeLogRepeats(e: Email)
    ensures var crashed := Next(FRESH, CrashBeforeLog(e));
            !RepeatFree(Next(crashed, Pass([e], _ => true, None)).mails)
  {
    var crashed := Next(FRESH, CrashBeforeLog(e));
    var accepts: Email -> bool := _ => true;
    var w := Walker([e], crashed.log, crashed.mails, 0, false);
    assert Walk(w, {}, accepts, None) == Tried(w, accepts) by {
      assert [e][1..] == [];
    }
    assert SentIn(crashed.log) == {};
    var mails := AfterPass(crashed, [e], accepts, None).0.mails;
    assert mails == [Mail(e, true), Mail(e, true)];
    assert mails[0].ok && mails[0].email == mails[1].email;
  }

  // ------------------------------------------------------------ cancelled and finished

  /** Nothing is mailed or logged after a cancellation, whatever runs or restarts, until it is queued anew. */
  lemma {:induction false} CancelledStays(s: State, steps: seq<Step>)
    requires forall n :: 0 <= n < |steps| ==> !steps[n].Requeue? && !steps[n].CrashBeforeLog?
    ensures var after := Run(Next(s, Cancel), steps);
            after.status == Cancelled && after.mails == s.mails && after.log == s.log
  {
    if |steps| > 0 {
      CancelledStays(s, steps[..|steps| - 1]);
    }
  }

  lemma {:induction false} WalkMails(w: Walker, skip: set<Email>, accepts: Email -> bool, cancelAt: Option<nat>)
    requires !w.halted && w.sent <= BUDGET && (cancelAt.Some? ==> w.sent <= cancelAt.value)
    ensures var after := Walk(w, skip, accepts, cancelAt);
            && w.mails <= after.mails && |after.mails| - |w.mails| == after.sent - w.sent
            && after.sent <= BUDGET && (cancelAt.Some? ==> after.sent <= cancelAt.value)
            && (after.halted ==> cancelAt == Some(after.sent))
    decreases |w.rest|
  {
    if w.rest != [] && w.sent < BUDGET {
      if w.rest[0] in skip {
        WalkMails(w.(rest := w.rest[1..]), skip, accepts, cancelAt);
      } else if cancelAt != Some(w.sent) {
        WalkMails(Tried(w, accepts), skip, accepts, cancelAt);
      }
    }
  }

  /**
    A pass only adds mails, never more than its budget. Cancelled before its k-th
    attempt it makes no more than the k before; it ends cancelled and forgets its
    walk exactly if it got that far.
  */
  lemma PassUntilCancelled(s: State, recipients: seq<Email>, accepts: Email -> bool, cancelAt: Option<nat>)
    requires s.status != Cancelled
    ensures var (after, outcome) := AfterPass(s, recipients, accepts, cancelAt);
            var made := |after.mails| - |s.mails|;
            && s.mails <= after.mails && made <= BUDGET && (cancelAt.Some? ==> made <= cancelAt.value)
            && (after.status == Cancelled <==> cancelAt == Some(made))
            && (after.status == Cancelled <==> outcome == Stopped)
            && (after.stream.Some? <==> outcome == Continues)
            && (outcome == Continues ==> after.status == if s.status == Queued then Sending else s.status)
  {
    var stream := StreamOf(s, recipients);
    WalkMails(Walker(stream.rest, s.log, s.mails, 0, false), stream.skip, accepts, cancelAt);
  }

  /** A finished broadcast is given the status its mails deserve. */
  lemma FinishedByMails(s: State, recipients: seq<Email>, accepts: Email -> bool, cancelAt: Option<nat>)
    requires Valid(s) && Distinct(recipients) && AfterPass(s, recipients, accepts, cancelAt).1 == Finished
    ensures var after := AfterPass(s, recipients, accepts, cancelAt).0;
            && (after.status == Sent
                <==> forall i :: 0 <= i < |after.mails| ==> Took(after.mails, after.mails[i].email))
            && (after.status == Failed
                <==> |after.mails| > 0 && forall i :: 0 <= i < |after.mails| ==> !after.mails[i].ok)
            && (after.status == Partial || after.status == Sent || after.status == Failed)
  {
    var after := AfterPass(s, recipients, accepts, cancelAt).0;
    StepKeepsValidIff(s, Pass(recipients, accepts, cancelAt));
    forall e ensures e in after.log <==> Mailed(after.mails, e)
      ensures e in after.log ==> (after.log[e] <==> Took(after.mails, e))
    {
    }
    StatusByLog(after);
  }

  lemma StatusByLog(s: State)
    requires forall e :: e in s.log <==> Mailed(s.mails, e)
    requires forall e :: e in s.log ==> (s.log[e] <==> Took(s.mails, e))
    ensures FinalStatus(s.log) == Sent <==> forall i :: 0 <= i < |s.mails| ==> Took(s.mails, s.mails[i].email)
    ensures FinalStatus(s.log) == Failed <==> |s.mails| > 0 && forall i :: 0 <= i < |s.mails| ==> !s.mails[i].ok
  {
    forall i | 0 <= i < |s.mails| ensures s.mails[i].email in s.log {
      assert Mailed(s.mails, s.mails[i].email);
    }
    forall i | 0 <= i < |s.mails| && s.mails[i].ok ensures s.log[s.mails[i].email] {
      assert s.mails[i] == Mail(s.mails[i].email, true) && Took(s.mails, s.mails[i].email);
    }
    forall e | e in s.log ensures |s.mails| > 0 {
      assert Mailed(s.mails, e);
    }
    forall i | 0 <= i < |s.mails| && s.mails[i].ok ensures FinalStatus(s.log) != Failed {
      assert s.mails[i].email in s.log && s.log[s.mails[i].email];
    }
    if |s.mails| > 0 && forall i :: 0 <= i < |s.mails| ==> !s.mails[i].ok {
      assert s.mails[0].email in s.log && !s.log[s.mails[0].email];
    }
  }

  /** A walk begun anew tries in order whoever has not yet taken the mail, up to its budget. */
  lemma ResumedPass(s: State, recipients: seq<Email>, accepts: Email -> bool)
    requires Valid(s) && s.stream.None? && s.status != Cancelled
    ensures var left := Untaken(s.mails, recipients);
            Addresses(AfterPass(s, recipients, accepts, None).0.mails)
            == Addresses(s.mails) + left[..Least(BUDGET, |left|)]
  {
    var skip := SentIn(s.log);
    WalkTries(Walker(recipients, s.log, s.mails, 0, false), skip, accepts);
    forall e ensures e in skip <==> Took(s.mails, e) {
    }
    UntakenUnskipped(s.mails, recipients, skip);
  }

  /** So does any broadcast that is queued again after a restart, a cancelled one too. */
  lemma RequeuedPass(s: State, recipients: seq<Email>, accepts: Email -> bool)
    requires Valid(s)
    ensures var left := Untaken(s.mails, recipients);
            var queued := Next(Next(s, Restart), Requeue);
            Addresses(AfterPass(queued, recipients, accepts, None).0.mails)
            == Addresses(s.mails) + left[..Least(BUDGET, |left|)]
  {
    ResumedPass(Next(Next(s, Restart), Requeue), recipients, accepts);
  }

  /** Those who have not taken the mail, in order. */
  function Untaken(mails: seq<Mail>, recipients: seq<Email>): seq<Email>
  {
    if recipients == [] then []
    else (if Took(mails, recipients[0]) then [] else [recipients[0]]) + Untaken(mails, recipients[1..])
  }

  lemma {:induction false} UntakenUnskipped(mails: seq<Mail>, recipients: seq<Email>, skip: set<Email>)
    requires forall e :: e in skip <==> Took(mails, e)
    ensures Untaken(mails, recipients) == Unskipped(recipients, skip)
  {
    if recipients != [] {
      UntakenUnskipped(mails, recipients[1..], skip);
    }
  }

  lemma {:induction false} WalkTries(w: Walker, skip: set<Email>, accepts: Email -> bool)
    requires w.sent <= BUDGET && !w.halted
    ensures var left := Unskipped(w.rest, skip);
            Addresses(Walk(w, skip, accepts, None).mails)
            == Addresses(w.mails) + left[..Least(BUDGET - w.sent, |left|)]
    decreases |w.rest|
  {
    if w.rest != [] && w.sent < BUDGET {
      if w.rest[0] in skip {
        WalkTries(w.(rest := w.rest[1..]), skip, accepts);
      } else {
        var t, left := Tried(w, accepts), Unskipped(w.rest[1..], skip);
        WalkTries(t, skip, accepts);
        assert Addresses(t.mails) == Addresses(w.mails) + [w.rest[0]];
        assert ([w.rest[0]] + left)[..Least(BUDGET - w.sent, |left| + 1)]
            == [w.rest[0]] + left[..Least(BUDGET - t.sent, |left|)];
      }
    } else {
      assert Addresses(w.mails) + [] == Addresses(w.mails);
    }
  }

  // --------------------------------------------------------------------------- coverage

  /** The passes of a broadcast that nothing interrupts, one after another. */
  function Chain(s: State, recipients: seq<Email>, accepts: Email -> bool): State
    decreases |StreamOf(s, recipients).rest|
  {
    var (after, outcome) := AfterPass(s, recipients, accepts, None);
    if outcome != Continues then after
    else
      WalkPulls(Walker(StreamOf(s, recipients).rest, s.log, s.mails, 0, false),
                StreamOf(s, recipients).skip, accepts, None);
      Chain(after, recipients, accepts)
  }

  /** A pass that fills its budget has pulled that many addresses: the re-queue chain ends. */
  lemma {:induction false} WalkPulls(w: Walker, skip: set<Email>, accepts: Email -> bool, cancelAt: Option<nat>)
    ensures var after := Walk(w, skip, accepts, cancelAt);
            |w.rest| - |after.rest| >= after.sent - w.sent >= 0
    decreases |w.rest|
  {
    if w.rest != [] && w.sent < BUDGET {
      if w.rest[0] in skip {
        WalkPulls(w.(rest := w.rest[1..]), skip, accepts, cancelAt);
      } else if cancelAt != Some(w.sent) {
        WalkPulls(Tried(w, accepts), skip, accepts, cancelAt);
      }
    }
  }

  function Addresses(mails: seq<Mail>): seq<Email>
  {
    seq(|mails|, i requires 0 <= i < |mails| => mails[i].email)
  }

  /** An unhindered walk tries up to its budget in order, and drops one more if there is one. */
  lemma {:induction false} PlainWalk(w: Walker, accepts: Email -> bool)
    requires w.sent <= BUDGET && !w.halted
    ensures var after := Walk(w, {}, accepts, None);
            var n := Least(BUDGET - w.sent, |w.rest|);
            && after.sent == w.sent + n && !after.halted
            && Addresses(after.mails) == Addresses(w.mails) + w.rest[..n]
            && after.rest == w.rest[Least(n + 1, |w.rest|)..]
    decreases |w.rest|
  {
    if w.rest != [] && w.sent < BUDGET {
      var t := Tried(w, accepts);
      var n := Least(BUDGET - t.sent, |t.rest|);
      PlainWalk(t, accepts);
      assert Addresses(t.mails) == Addresses(w.mails) + [w.rest[0]];
      assert [w.rest[0]] + t.rest[..n] == w.rest[..n + 1];
    }
  }

  /** The recipients an uninterrupted fresh run attempts: all but every thirty-first. */
  function Attempted(recipients: seq<Email>): seq<Email>
  {
    if |recipients| <= BUDGET then recipients
    else recipients[..BUDGET] + Attempted(recipients[BUDGET + 1..])
  }

  /** A pass nothing hinders: it reaches its budget in order and drops one more, or it finishes the list. */
  lemma PlainPass(s: State, recipients: seq<Email>, accepts: Email -> bool)
    requires (s.status == Queued || s.status == Sending) && StreamOf(s, recipients).skip == {}
    ensures var rest := StreamOf(s, recipients).rest;
            var (after, outcome) := AfterPass(s, recipients, accepts, None);
            && Addresses(after.mails) == Addresses(s.mails) + rest[..Least(BUDGET, |rest|)]
            && (outcome == Continues <==> |rest| >= BUDGET)
            && (outcome == Continues ==>
                  after.status == Sending && after.stream == Some(Stream(rest[Least(BUDGET + 1, |rest|)..], {})))
  {
    PlainWalk(Walker(StreamOf(s, recipients).rest, s.log, s.mails, 0, false), accepts);
  }

  lemma {:induction false} ChainAttempts(s: State, recipients: seq<Email>, accepts: Email -> bool)
    requires s.status == Queued || s.status == Sending
    requires StreamOf(s, recipients).skip == {}
    ensures Addresses(Chain(s, recipients, accepts).mails)
            == Addresses(s.mails) + Attempted(StreamOf(s, recipients).rest)
    decreases |StreamOf(s, recipients).rest|
  {
    var rest := StreamOf(s, recipients).rest;
    PlainPass(s, recipients, accepts);
    if |rest| < BUDGET {
      assert rest[..|rest|] == rest;
    } else {
      var after := AfterPass(s, recipients, accepts, None).0;
      ChainAttempts(after, recipients, accepts);
      AttemptedStep(rest);
      assert Addresses(s.mails) + rest[..BUDGET] + Attempted(StreamOf(after, recipients).rest)
          == Addresses(s.mails) + Attempted(rest);
    }
  }

  lemma AttemptedStep(recipients: seq<Email>)
    requires |recipients| >= BUDGET
    ensures Attempted(recipients)
            == recipients[..BUDGET] + Attempted(recipients[Least(BUDGET + 1, |recipients|)..])
  {
    if |recipients| == BUDGET {
      assert recipients[..BUDGET] == recipients && recipients[BUDGET..] == [];
    }
  }

  lemma {:induction false} AttemptedCount(recipients: seq<Email>)
    ensures |Attempted(recipients)| == |recipients| - |recipients| / (BUDGET + 1)
  {
    if |recipients| > BUDGET {
      AttemptedCount(recipients[BUDGET + 1..]);
    }
  }

  /** All but every thirty-first, stated by position. */
  lemma {:induction false} AttemptedAt(recipients: seq<Email>, pass: nat, r: nat)
    requires r < 30 && 30 * pass + r < |Attempted(recipients)|
    ensures 31 * pass + r < |recipients| && Attempted(recipients)[30 * pass + r] == recipients[31 * pass + r]
    decreases pass
  {
    if |recipients| > 30 && pass > 0 {
      var later, j := recipients[31..], 30 * (pass - 1) + r;
      assert Attempted(recipients) == recipients[..30] + Attempted(later);
      assert Attempted(recipients)[30 + j] == Attempted(later)[j];
      AttemptedAt(later, pass - 1, r);
      assert later[31 * (pass - 1) + r] == recipients[31 + (31 * (pass - 1) + r)];
    }
  }

  /**
    An uninterrupted broadcast to N recipients attempts N - floor(N / 31) of them:
    the 31st, 62nd and so on are never tried. Everybody is reached exactly when
    the budget is not exceeded.
  */
  lemma FreshRunReaches(recipients: seq<Email>, accepts: Email -> bool)
    ensures var tried := Addresses(Chain(FRESH, recipients, accepts).mails);
            && |tried| == |recipients| - |recipients| / 31
            && (forall j :: 0 <= j < |tried| ==>
                  j + j / 30 < |recipients| && tried[j] == recipients[j + j / 30])
            && (tried == recipients <==> |recipients| <= 30)
  {
    FreshRunAttempts(recipients, accepts);
    AttemptedCount(recipients);
    forall j | 0 <= j < |Attempted(recipients)|
      ensures j + j / 30 < |recipients| && Attempted(recipients)[j] == recipients[j + j / 30]
    {
      AttemptedPosition(recipients, j);
    }
    AttemptedAllIff(recipients);
  }

  lemma AttemptedPosition(recipients: seq<Email>, j: nat)
    requires j < |Attempted(recipients)|
    ensures j + j / 30 < |recipients| && Attempted(recipients)[j] == recipients[j + j / 30]
  {
    AttemptedAt(recipients, j / 30, j % 30);
  }

  lemma AttemptedAllIff(recipients: seq<Email>)
    ensures Attempted(recipients) == recipients <==> |recipients| <= 30
  {
    if |recipients| > BUDGET {
      AttemptedCount(recipients);
      assert |recipients| / 31 >= 1;
      assert |Attempted(recipients)| < |recipients|;
    }
  }

  lemma FreshRunAttempts(recipients: seq<Email>, accepts: Email -> bool)
    ensures Addresses(Chain(FRESH, recipients, accepts).mails) == Attempted(recipients)
  {
    assert SentIn(FRESH.log) == {};
    ChainAttempts(FRESH, recipients, accepts);
    assert Addresses(FRESH.mails) == [];
    assert [] + Attempted(recipients) == Attempted(recipients);
  }

  // ------------------------------------------------------- the test before the pull

  /** The same loop with the budget tested before the next address is pulled. */
  function WalkTestFirst(w: Walker, skip: set<Email>, accepts: Email -> bool): Walker
    decreases |w.rest|
  {
    if w.sent >= BUDGET || w.rest == [] then w
    else if w.rest[0] in skip then WalkTestFirst(w.(rest := w.rest[1..]), skip, accepts)
    else WalkTestFirst(Tried(w, accepts), skip, accepts)
  }

  lemma {:induction false} TestFirstPulls(w: Walker, skip: set<Email>, accepts: Email -> bool)
    ensures var after := WalkTestFirst(w, skip, accepts);
            && |w.rest| - |after.rest| >= after.sent - w.sent >= 0
            && (after.sent < BUDGET ==> after.rest == [])
    decreases |w.rest|
  {
    if w.sent < BUDGET && w.rest != [] {
      TestFirstPulls(if w.rest[0] in skip then w.(rest := w.rest[1..]) else Tried(w, accepts), skip, accepts);
    }
  }

  lemma {:induction false} TestFirstLosesNone(w: Walker, skip: set<Email>, accepts: Email -> bool)
    ensures var after := WalkTestFirst(w, skip, accepts);
            Addresses(after.mails) + Unskipped(after.rest, skip) == Addresses(w.mails) + Unskipped(w.rest, skip)
    decreases |w.rest|
  {
    if w.sent < BUDGET && w.rest != [] {
      if w.rest[0] in skip {
        TestFirstLosesNone(w.(rest := w.rest[1..]), skip, accepts);
      } else {
        var t := Tried(w, accepts);
        TestFirstLosesNone(t, skip, accepts);
        assert Addresses(t.mails) == Addresses(w.mails) + [w.rest[0]];
        assert Addresses(w.mails) + ([w.rest[0]] + Unskipped(t.rest, skip))
            == Addresses(t.mails) + Unskipped(t.rest, skip);
      }
    }
  }

  function Unskipped(rest: seq<Email>, skip: set<Email>): seq<Email>
  {
    if rest == [] then []
    else (if rest[0] in skip then [] else [rest[0]]) + Unskipped(rest[1..], skip)
  }

  /** Passes with the moved test, until one does not fill its budget. */
  function ChainTestFirst(rest: seq<Email>, skip: set<Email>, log: map<Email, bool>, mails: seq<Mail>,
                          accepts: Email -> bool): seq<Mail>
    decreases |rest|
  {
    var w := Walker(rest, log, mails, 0, false);
    var after := WalkTestFirst(w, skip, accepts);
    if after.sent < BUDGET then after.mails
    else
      TestFirstPulls(w, skip, accepts);
      ChainTestFirst(after.rest, skip, after.log, after.mails, accepts)
  }

  /** With the test moved, a run attempts every recipient it is not to skip, once each and in order. */
  lemma {:induction false} TestFirstReachesAll(rest: seq<Email>, skip: set<Email>, log: map<Email, bool>,
                                               mails: seq<Mail>, accepts: Email -> bool)
    ensures Addresses(ChainTestFirst(rest, skip, log, mails, accepts)) == Addresses(mails) + Unskipped(rest, skip)
    decreases |rest|
  {
    var w := Walker(rest, log, mails, 0, false);
    var after := WalkTestFirst(w, skip, accepts);
    TestFirstPulls(w, skip, accepts);
    TestFirstLosesNone(w, skip, accepts);
    if after.sent >= BUDGET {
      TestFirstReachesAll(after.rest, skip, after.log, after.mails, accepts);
    } else {
      assert Addresses(after.mails) + [] == Addresses(after.mails);
    }
  }
}
