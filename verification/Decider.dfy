/** Policies are evaluated in order and the first decisive result wins (decider.go). */
module Decider {
  import opened Pdata
  import opened TraceValues

  datatype Decision = Unevaluated | Pending | Sampled | NotSampled | LowPriority

  /** An evaluator returns a decision and, possibly, an error. */
  datatype Outcome = Outcome(decision: Decision, failed: bool)

  /** The first argument stands for everything outside the trace an evaluator may consult, such as
      a remote sampling rate: evaluators are otherwise arbitrary. */
  type Evaluator = (nat, TraceID, Traces, Meta) -> Outcome

  datatype Policy = Policy(name: string, emitSingleSpan: bool, evaluate: Evaluator)

  /** The final decision, with the name and the placeholder flag of the policy that made it. */
  datatype Verdict = Verdict(decision: Decision, policy: Option<string>, emit: bool)

  predicate Decisive(d: Decision) {
    d == Sampled || d == NotSampled || d == LowPriority
  }

  /** What policy `p` says, after a low-priority result of another policy than the one that last
      made the trace low priority has been turned into Pending. */
  function Opinion(p: Policy, env: nat, id: TraceID, batch: Traces, merged: Meta): Decision {
    var d := p.evaluate(env, id, batch, merged).decision;
    if merged.lastLow.Some? && merged.lastLow.value != p.name && d == LowPriority then Pending else d
  }

  function Decide(policies: seq<Policy>, env: nat, id: TraceID, batch: Traces, merged: Meta): Verdict {
    if policies == [] then Verdict(Pending, None, false)
    else
      var d := Opinion(policies[0], env, id, batch, merged);
      if Decisive(d) then Verdict(d, Some(policies[0].name), policies[0].emitSingleSpan)
      else Decide(policies[1..], env, id, batch, merged)
  }

  /** `MakeDecision`. */
  method MakeDecision(policies: seq<Policy>, env: nat, id: TraceID, batch: Traces, merged: Meta)
    returns (v: Verdict)
    ensures v == Decide(policies, env, id, batch, merged)
  {
    var i := 0;
    while i < |policies|
      invariant i <= |policies|
      invariant Decide(policies[i..], env, id, batch, merged) == Decide(policies, env, id, batch, merged)
    {
      var p := policies[i];
      var decision := p.evaluate(env, id, batch, merged).decision;
      if merged.lastLow.Some? && merged.lastLow.value != p.name && decision == LowPriority {
        decision := Pending;
      }
      assert policies[i..][0] == p && policies[i..][1..] == policies[i + 1..];
      if decision == Sampled || decision == NotSampled || decision == LowPriority {
        return Verdict(decision, Some(p.name), p.emitSingleSpan);
      }
      i := i + 1;
    }
    v := Verdict(Pending, None, false);
  }

  /** Policy `i` is the first whose opinion is decisive. */
  ghost predicate FirstDecisive(policies: seq<Policy>, i: nat, env: nat, id: TraceID, batch: Traces, merged: Meta) {
    && i < |policies|
    && Decisive(Opinion(policies[i], env, id, batch, merged))
    && (forall j :: 0 <= j < i ==> !Decisive(Opinion(policies[j], env, id, batch, merged)))
  }

  function VerdictOf(p: Policy, env: nat, id: TraceID, batch: Traces, merged: Meta): Verdict {
    Verdict(Opinion(p, env, id, batch, merged), Some(p.name), p.emitSingleSpan)
  }

  /** The verdict is the opinion of the first decisive policy, or Pending from no policy when none
      is decisive; it is never anything else. */
  lemma {:induction false} DecideIsFirstDecisive(policies: seq<Policy>, env: nat, id: TraceID, batch: Traces,
      merged: Meta)
    ensures var v := Decide(policies, env, id, batch, merged);
            && (v.policy.None? <==> forall j :: 0 <= j < |policies| ==>
                !Decisive(Opinion(policies[j], env, id, batch, merged)))
            && (v.policy.None? ==> v == Verdict(Pending, None, false))
            && (v.policy.Some? ==>
                  exists i: nat ::
                    FirstDecisive(policies, i, env, id, batch, merged)
                    && v == VerdictOf(policies[i], env, id, batch, merged))
  {
    if policies != [] {
      var rest, v := policies[1..], Decide(policies, env, id, batch, merged);
      DecideIsFirstDecisive(rest, env, id, batch, merged);
      if Decisive(Opinion(policies[0], env, id, batch, merged)) {
        assert FirstDecisive(policies, 0, env, id, batch, merged);
      } else if v.policy.Some? {
        var i: nat :| FirstDecisive(rest, i, env, id, batch, merged) && v == VerdictOf(rest[i], env, id, batch, merged);
        assert FirstDecisive(policies, i + 1, env, id, batch, merged) by {
          forall j | 0 <= j < i + 1 ensures !Decisive(Opinion(policies[j], env, id, batch, merged)) {
            if j > 0 { assert policies[j] == rest[j - 1]; }
          }
        }
      } else {
        forall j | 0 <= j < |policies| ensures !Decisive(Opinion(policies[j], env, id, batch, merged)) {
          if j > 0 { assert policies[j] == rest[j - 1]; }
        }
      }
    }
  }

  /** A verdict is Pending, Sampled, NotSampled or LowPriority; the last three name a policy of the
      list; and once a policy has lowered a trace, only a policy of the same name can again. */
  lemma {:induction false} VerdictShape(policies: seq<Policy>, env: nat, id: TraceID, batch: Traces, merged: Meta)
    ensures var v := Decide(policies, env, id, batch, merged);
            && (v.policy.None? <==> v.decision == Pending)
            && (Decisive(v.decision) || v.decision == Pending)
            && (v.policy.Some? ==> exists p :: p in policies && p.name == v.policy.value && p.emitSingleSpan == v.emit)
            && (v.decision == LowPriority && merged.lastLow.Some? ==> v.policy == merged.lastLow)
  {
    if policies != [] { VerdictShape(policies[1..], env, id, batch, merged); }
  }

  // ----- the verdict in terms of what the evaluators return -----

  /** What policy `p` itself returns. */
  function Returned(p: Policy, env: nat, id: TraceID, batch: Traces, merged: Meta): Decision {
    p.evaluate(env, id, batch, merged).decision
  }

  /** Another policy than `p` was the last to make the trace low priority. */
  predicate LoweredByOther(p: Policy, merged: Meta) {
    merged.lastLow.Some? && merged.lastLow.value != p.name
  }

  /** Policy `p` settles the matter: it returns Sampled or NotSampled, or LowPriority for a trace that
      no other policy has lowered. */
  predicate Settles(p: Policy, env: nat, id: TraceID, batch: Traces, merged: Meta) {
    var d := Returned(p, env, id, batch, merged);
    d == Sampled || d == NotSampled || (d == LowPriority && !LoweredByOther(p, merged))
  }

  /** Policy `i` is the first that settles the matter. */
  ghost predicate FirstToSettle(policies: seq<Policy>, i: nat, env: nat, id: TraceID, batch: Traces, merged: Meta) {
    && i < |policies|
    && Settles(policies[i], env, id, batch, merged)
    && (forall j :: 0 <= j < i ==> !Settles(policies[j], env, id, batch, merged))
  }

  /** The verdict is what the first policy to settle the matter returned, under its name. */
  lemma {:induction false} VerdictIsReturned(policies: seq<Policy>, i: nat, env: nat, id: TraceID, batch: Traces,
      merged: Meta)
    requires FirstToSettle(policies, i, env, id, batch, merged)
    ensures Decide(policies, env, id, batch, merged)
            == Verdict(Returned(policies[i], env, id, batch, merged), Some(policies[i].name),
                       policies[i].emitSingleSpan)
  {
    if i > 0 {
      assert !Settles(policies[0], env, id, batch, merged);
      var rest := policies[1..];
      assert forall j :: 0 <= j < i - 1 ==> rest[j] == policies[j + 1];
      VerdictIsReturned(rest, i - 1, env, id, batch, merged);
    }
  }

  /** If none settles it, the verdict is Pending, by no policy. */
  lemma {:induction false} NoneSettles(policies: seq<Policy>, env: nat, id: TraceID, batch: Traces, merged: Meta)
    requires forall j :: 0 <= j < |policies| ==> !Settles(policies[j], env, id, batch, merged)
    ensures Decide(policies, env, id, batch, merged) == Verdict(Pending, None, false)
  {
    if policies != [] {
      assert !Settles(policies[0], env, id, batch, merged);
      NoneSettles(policies[1..], env, id, batch, merged);
    }
  }

  lemma {:induction false} SomeFirst(policies: seq<Policy>, env: nat, id: TraceID, batch: Traces, merged: Meta)
    ensures (forall j :: 0 <= j < |policies| ==> !Settles(policies[j], env, id, batch, merged))
            || (exists i: nat :: FirstToSettle(policies, i, env, id, batch, merged))
  {
    if policies != [] {
      var rest := policies[1..];
      SomeFirst(rest, env, id, batch, merged);
      if Settles(policies[0], env, id, batch, merged) {
        assert FirstToSettle(policies, 0, env, id, batch, merged);
      } else if i: nat :| FirstToSettle(rest, i, env, id, batch, merged) {
        forall j | 0 <= j < i + 1 ensures !Settles(policies[j], env, id, batch, merged) {
          if j > 0 { assert policies[j] == rest[j - 1]; }
        }
        assert FirstToSettle(policies, i + 1, env, id, batch, merged);
      } else {
        forall j | 0 <= j < |policies| ensures !Settles(policies[j], env, id, batch, merged) {
          if j > 0 { assert policies[j] == rest[j - 1]; }
        }
      }
    }
  }

  /** The verdict is Sampled, NotSampled or LowPriority exactly if that is what the first policy to
      settle the matter itself returned, and Pending exactly if no policy settles it. */
  lemma VerdictIff(policies: seq<Policy>, env: nat, id: TraceID, batch: Traces, merged: Meta, d: Decision)
    ensures Decisive(d) ==>
              (Decide(policies, env, id, batch, merged).decision == d <==>
               exists i: nat :: FirstToSettle(policies, i, env, id, batch, merged)
                                && Returned(policies[i], env, id, batch, merged) == d)
    ensures Decide(policies, env, id, batch, merged).decision == Pending <==>
            forall j :: 0 <= j < |policies| ==> !Settles(policies[j], env, id, batch, merged)
  {
    SomeFirst(policies, env, id, batch, merged);
    if forall j :: 0 <= j < |policies| ==> !Settles(policies[j], env, id, batch, merged) {
      NoneSettles(policies, env, id, batch, merged);
    } else {
      var i: nat :| FirstToSettle(policies, i, env, id, batch, merged);
      VerdictIsReturned(policies, i, env, id, batch, merged);
      forall k: nat | FirstToSettle(policies, k, env, id, batch, merged) ensures k == i {
        assert !(k < i) && !(i < k);
      }
    }
  }
}
