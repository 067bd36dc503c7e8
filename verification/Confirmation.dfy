/** Nothing is recorded or sent that no caller asked for by its transaction id. */
module Confirmation {
  import opened Wrappers
  import opened Psbts
  import opened Tables
  import opened Operations
  import opened Protocol
  import opened Outcomes
  import Commits
  import Recovery
  import Responses

  ghost predicate IsAsked(asked: seq<Step>, request: BroadcastRequest) {
    exists k :: 0 <= k < |asked| && asked[k].Begin? && asked[k].request == request
  }

  /** The request of one of these callers, for this draft and for exactly this transaction, over a permitted endpoint. */
  ghost predicate Named(env: Env, asked: seq<Step>, request: BroadcastRequest, draft: DraftId, tx: Transaction) {
    && IsAsked(asked, request) && request.draft == draft && request.endpointOk && !env.mainnet
    && env.crypto.hash(Responses.WithoutWitnesses(tx)) == request.expectedTxid
  }

  ghost predicate PostIsNamed(env: Env, asked: seq<Step>, post: Post) {
    exists request :: Named(env, asked, request, post.draft, post.tx)
  }

  /** A repeated submission was consented to. */
  ghost predicate InsertionIsNamed(asked: seq<Step>, inserted: Insertion) {
    exists request :: IsAsked(asked, request) && request.draft == inserted.draft && request.previous == inserted.expected
      && (request.previous.Some? ==> request.retryAcknowledged)
  }

  ghost predicate AllNamed(env: Env, asked: seq<Step>, s: System) {
    && (forall c :: c in s.callers ==> Named(env, asked, s.callers[c].request, s.callers[c].request.draft, s.callers[c].approved.tx))
    && (forall i :: 0 <= i < |s.posts| ==> PostIsNamed(env, asked, s.posts[i]))
    && (forall i :: 0 <= i < |s.log| ==> InsertionIsNamed(asked, s.log[i]))
  }

  lemma AskedGrows(asked: seq<Step>, step: Step)
    ensures forall request :: IsAsked(asked, request) ==> IsAsked(asked + [step], request)
    ensures step.Begin? ==> IsAsked(asked + [step], step.request)
  {
    forall request | IsAsked(asked, request) ensures IsAsked(asked + [step], request) {
      var k :| 0 <= k < |asked| && asked[k].Begin? && asked[k].request == request;
      assert (asked + [step])[k] == asked[k];
    }
    assert (asked + [step])[|asked|] == step;
  }

  lemma NamedGrows(env: Env, asked: seq<Step>, step: Step, s: System)
    requires AllNamed(env, asked, s)
    ensures AllNamed(env, asked + [step], s)
  {
    AskedGrows(asked, step);
    hide IsAsked;
    forall i | 0 <= i < |s.posts| ensures PostIsNamed(env, asked + [step], s.posts[i]) {
      var request :| Named(env, asked, request, s.posts[i].draft, s.posts[i].tx);
      assert Named(env, asked + [step], request, s.posts[i].draft, s.posts[i].tx);
    }
    forall i | 0 <= i < |s.log| ensures InsertionIsNamed(asked + [step], s.log[i]) {
      assert InsertionIsNamed(asked, s.log[i]);
    }
  }

  lemma BegunIsNamed(env: Env, asked: seq<Step>, db: Db, request: BroadcastRequest)
    requires IsAsked(asked, request) && BeginBroadcast(env, db, request).Ok?
    ensures Named(env, asked, request, request.draft, BeginBroadcast(env, db, request).value.tx)
  {
    var approved := BeginBroadcast(env, db, request).value;
    BeginsExactly(env, db, request, approved);
    ValidatesExactly(env, db, request.draft, approved);
    hide BeginBroadcast, ValidatedFinalized, IsAsked, LoadDraft, Assembles, MayAttempt;
  }

  lemma BeginIsNamed(env: Env, asked: seq<Step>, s: System, caller: nat, request: BroadcastRequest)
    requires AllNamed(env, asked, s) && IsAsked(asked, request)
    ensures AllNamed(env, asked, BeginCaller(env, s, caller, request))
  {
    if BeginBroadcast(env, s.db, request).Ok? {
      BegunIsNamed(env, asked, s.db, request);
    }
    hide BeginBroadcast, PostIsNamed, InsertionIsNamed, IsAsked, Named;
  }

  lemma InsertedIsNamed(env: Env, asked: seq<Step>, db: Db, request: BroadcastRequest, approved: FinalReview, attempt: nat)
    requires IsAsked(asked, request) && InsertAttempt(env, db, request, approved).Ok?
    ensures InsertionIsNamed(asked, Insertion(request.draft, request.previous, attempt))
  {
    InsertsExactly(env, db, request, approved);
    hide InsertAttempt, ValidatedFinalized, IsAsked, LatestId, AttemptCount;
  }

  /** Callers that only move on, and one more insertion that was asked for. */
  lemma MovedIsNamed(env: Env, asked: seq<Step>, s: System, after: System)
    requires AllNamed(env, asked, s) && after.posts == s.posts
    requires forall c :: c in after.callers ==>
      c in s.callers && after.callers[c].request == s.callers[c].request && after.callers[c].approved == s.callers[c].approved
    requires |s.log| <= |after.log| <= |s.log| + 1 && after.log[..|s.log|] == s.log
    requires |after.log| > |s.log| ==> InsertionIsNamed(asked, after.log[|s.log|])
    ensures AllNamed(env, asked, after)
  {
    hide Named, PostIsNamed, InsertionIsNamed;
    forall i | 0 <= i < |after.log| ensures InsertionIsNamed(asked, after.log[i]) {
      assert i < |s.log| ==> after.log[i] == s.log[i];
    }
  }

  lemma RecordShape(env: Env, s: System, caller: nat)
    requires caller in s.callers && s.callers[caller].Checked?
    ensures var request, approved := s.callers[caller].request, s.callers[caller].approved;
      var insert := InsertAttempt(env, s.db, request, approved);
      Protocol.RecordAttempt(env, s, caller) ==
        if insert.Err? then s.(callers := s.callers - {caller})
        else s.(db := insert.value.0, callers := s.callers[caller := Inserted(request, approved, insert.value.1)],
                log := s.log + [Insertion(request.draft, request.previous, insert.value.1)])
  {
    hide InsertAttempt;
  }

  lemma RecordIsNamed(env: Env, asked: seq<Step>, s: System, caller: nat)
    requires AllNamed(env, asked, s)
    ensures AllNamed(env, asked, Protocol.RecordAttempt(env, s, caller))
  {
    if caller in s.callers && s.callers[caller].Checked? {
      var request, approved := s.callers[caller].request, s.callers[caller].approved;
      assert IsAsked(asked, request) by {
        assert Named(env, asked, request, request.draft, approved.tx);
      }
      RecordShape(env, s, caller);
      hide InsertAttempt, InsertionIsNamed, AllNamed, IsAsked, Protocol.RecordAttempt;
      var insert := InsertAttempt(env, s.db, request, approved);
      if insert.Ok? {
        InsertedIsNamed(env, asked, s.db, request, approved, insert.value.1);
      }
      MovedIsNamed(env, asked, s, Protocol.RecordAttempt(env, s, caller));
    }
  }

  lemma TransmitIsNamed(env: Env, asked: seq<Step>, s: System, caller: nat)
    requires AllNamed(env, asked, s)
    ensures AllNamed(env, asked, TransmitBytes(s, caller))
  {
    if caller in s.callers && s.callers[caller].Inserted? {
      var Inserted(request, approved, attempt) := s.callers[caller];
      assert PostIsNamed(env, asked, Post(attempt, request.draft, approved.tx)) by {
        assert Named(env, asked, request, request.draft, approved.tx);
      }
      hide PostIsNamed, InsertionIsNamed, Named;
    }
  }

  lemma NextIsNamed(env: Env, asked: seq<Step>, s: System, step: Step)
    requires AllNamed(env, asked, s)
    ensures AllNamed(env, asked + [step], Next(env, s, step))
  {
    NamedGrows(env, asked, step, s);
    AskedGrows(asked, step);
    var all := asked + [step];
    match step
    case Begin(caller, request) => BeginIsNamed(env, all, s, caller, request);
    case Record(caller) => RecordIsNamed(env, all, s, caller);
    case Transmit(caller) => TransmitIsNamed(env, all, s, caller);
    case _ => hide PostIsNamed, InsertionIsNamed, Named, IsAsked, Commits.Apply, Recovery.Suspend;
  }

  lemma {:induction false} RunIsNamed(env: Env, asked: seq<Step>, s: System, steps: seq<Step>)
    requires AllNamed(env, asked, s)
    ensures AllNamed(env, asked + steps, RunSteps(env, s, steps))
    decreases |steps|
  {
    hide AllNamed, Next;
    if steps == [] {
      assert asked + steps == asked;
    } else {
      NextIsNamed(env, asked, s, steps[0]);
      RunIsNamed(env, asked + [steps[0]], Next(env, s, steps[0]), steps[1..]);
      assert asked + [steps[0]] + steps[1..] == asked + steps;
    }
  }

  /**
   * In every reachable state each POST carries a transaction whose id some caller named for
   * that draft, and each recorded attempt followed the one its caller named, with consent.
   */
  lemma EveryPostWasNamed(env: Env, steps: seq<Step>)
    ensures var s := RunSteps(env, FRESH, steps);
      && (forall i :: 0 <= i < |s.posts| ==> PostIsNamed(env, steps, s.posts[i]))
      && (forall i :: 0 <= i < |s.log| ==> InsertionIsNamed(steps, s.log[i]))
  {
    RunIsNamed(env, [], FRESH, steps);
    assert [] + steps == steps;
    hide PostIsNamed, InsertionIsNamed, RunSteps;
  }
}
