/**
 Ownership of the upstream client: a one-place channel holding one token, taken by `acquire` and
 put back by `release`, for any number of requests and any interleaving.
 */
module OwnerToken {
  datatype Phase =
    | Asking     // about to look at its context
    | Blocked    // in the select: token or context, whichever comes first
    | Taken      // holds the token, about to look at its context once more
    | Owning     // acquire returned: the request may use the session
    | Refused    // acquire returned the context's error
    | Released   // done, token put back

  /** `ended`: the request's context is over; `early`: it was over before the request came to own
      the client; `uses`: session operations performed. */
  datatype Request = Request(phase: Phase, ended: bool, early: bool, uses: nat)

  datatype State = State(tokens: nat, reqs: map<nat, Request>)

  datatype Step =
    | Arrive(p: nat)
    | End(p: nat)
    | Look(p: nat)
    | Cancelled(p: nat)
    | Take(p: nat)
    | Recheck(p: nat)
    | Use(p: nat)
    | Release(p: nat)

  const Start := State(1, map[])

  predicate Enabled(s: State, step: Step) {
    if step.Arrive? then step.p !in s.reqs else
    && step.p in s.reqs
    && var r := s.reqs[step.p];
       match step
       case End(_) => !r.ended
       case Look(_) => r.phase.Asking?
       case Cancelled(_) => r.phase.Blocked? && r.ended
       case Take(_) => r.phase.Blocked? && s.tokens > 0
       case Recheck(_) => r.phase.Taken?
       case Use(_) => r.phase.Owning?
       case Release(_) => r.phase.Owning?
  }

  function Set(s: State, p: nat, r: Request): State { s.(reqs := s.reqs[p := r]) }

  function After(s: State, step: Step): State
    requires Enabled(s, step)
  {
    if step.Arrive? then Set(s, step.p, Request(Asking, false, false, 0)) else
    var p, r := step.p, s.reqs[step.p];
    match step
    case End(_) => Set(s, p, r.(ended := true, early := r.phase.Asking? || r.phase.Blocked? || r.phase.Taken?))
    case Look(_) => Set(s, p, r.(phase := if r.ended then Refused else Blocked))
    case Cancelled(_) => Set(s, p, r.(phase := Refused))
    case Take(_) => Set(s, p, r.(phase := Taken)).(tokens := s.tokens - 1)
    case Recheck(_) => if r.ended then Set(s, p, r.(phase := Refused)).(tokens := s.tokens + 1) else Set(s, p, r.(phase := Owning))
    case Use(_) => Set(s, p, r.(uses := r.uses + 1))
    case Release(_) => Set(s, p, r.(phase := Released)).(tokens := s.tokens + 1)
  }

  ghost predicate Reaches(s: State, steps: seq<Step>, t: State)
    decreases |steps|
  {
    if steps == [] then s == t else Enabled(s, steps[0]) && Reaches(After(s, steps[0]), steps[1..], t)
  }

  predicate Holds(r: Request) { r.phase.Taken? || r.phase.Owning? }

  function Holders(s: State): set<nat> { set p | p in s.reqs && Holds(s.reqs[p]) }

  ghost predicate RequestOk(r: Request) {
    && (r.early ==> r.ended && !r.phase.Owning? && !r.phase.Released?)
    && (r.ended && !r.early ==> r.phase.Owning? || r.phase.Released? || r.phase.Refused?)
    && (r.uses > 0 ==> r.phase.Owning? || r.phase.Released?)
    && (r.phase.Refused? ==> r.ended)
  }

  ghost predicate Inv(s: State) {
    && s.tokens + |Holders(s)| == 1
    && forall p :: p in s.reqs ==> RequestOk(s.reqs[p])
  }

  function Held(s: State, p: nat): int { if p in s.reqs && Holds(s.reqs[p]) then 1 else 0 }

  lemma HoldersAfter(s: State, t: State, p: nat, r: Request)
    requires t.reqs == s.reqs[p := r]
    ensures |Holders(t)| == |Holders(s)| - Held(s, p) + Held(t, p)
  {
    var rest := Holders(s) - {p};
    assert Holders(s) == if Held(s, p) == 1 then rest + {p} else rest;
    assert Holders(t) == if Held(t, p) == 1 then rest + {p} else rest;
  }

  lemma TokensKept(s: State, step: Step)
    requires s.tokens + |Holders(s)| == 1 && Enabled(s, step)
    ensures After(s, step).tokens + |Holders(After(s, step))| == 1
  {
    var t := After(s, step);
    HoldersAfter(s, t, step.p, t.reqs[step.p]);
  }

  lemma StepKeepsInv(s: State, step: Step)
    requires Inv(s) && Enabled(s, step)
    ensures Inv(After(s, step))
  {
    TokensKept(s, step);
    forall p | p in After(s, step).reqs ensures RequestOk(After(s, step).reqs[p]) {
      if p in s.reqs { assert RequestOk(s.reqs[p]); }
    }
  }

  lemma {:induction false} RunKeepsInv(s: State, steps: seq<Step>, t: State)
    requires Inv(s) && Reaches(s, steps, t)
    ensures Inv(t)
    decreases |steps|
  {
    if steps != [] {
      StepKeepsInv(s, steps[0]);
      RunKeepsInv(After(s, steps[0]), steps[1..], t);
    }
  }

  /** The token is conserved: in the channel or with exactly one request.  So at most one request
      uses the session at a time, and whoever puts the token back finds the channel empty. */
  lemma TokenConserved(steps: seq<Step>, t: State, p: nat, q: nat)
    requires Reaches(Start, steps, t)
    ensures t.tokens + |Holders(t)| == 1
    ensures p in Holders(t) && q in Holders(t) ==> p == q
    ensures p in Holders(t) ==> t.tokens == 0
  {
    assert Holders(Start) == {};
    RunKeepsInv(Start, steps, t);
    if p in Holders(t) {
      assert {p} <= Holders(t);
      assert Holders(t) == {p} + (Holders(t) - {p});
      assert |Holders(t)| == 1 + |Holders(t) - {p}|;
    }
  }

  /** A request whose context ended before it came to own the client never touches the session. */
  lemma EndedEarlyNeverUses(steps: seq<Step>, t: State, p: nat)
    requires Reaches(Start, steps, t) && p in t.reqs && t.reqs[p].early
    ensures t.reqs[p].uses == 0 && !t.reqs[p].phase.Owning?
  {
    assert Holders(Start) == {};
    RunKeepsInv(Start, steps, t);
  }

  /** Only requests whose context ended are refused: a live request that is given the token comes to own the
      client. */
  lemma RefusedOnlyIfEnded(steps: seq<Step>, t: State, p: nat)
    requires Reaches(Start, steps, t) && p in t.reqs
    ensures t.reqs[p].phase.Refused? ==> t.reqs[p].ended
    ensures t.reqs[p].phase.Taken? && !t.reqs[p].ended ==> After(t, Recheck(p)).reqs[p].phase.Owning?
  {
    assert Holders(Start) == {};
    RunKeepsInv(Start, steps, t);
  }

  /** A request whose context is already over when it asks is turned away without ever taking the token. */
  lemma {:induction false} EndedWhileAskingNeverTakes(s: State, steps: seq<Step>, t: State, p: nat)
    requires Reaches(s, steps, t) && p in s.reqs && s.reqs[p].ended && (s.reqs[p].phase.Asking? || s.reqs[p].phase.Refused?)
    ensures p in t.reqs && t.reqs[p].ended && (t.reqs[p].phase.Asking? || t.reqs[p].phase.Refused?) && p !in Holders(t)
    decreases |steps|
  {
    if steps != [] { EndedWhileAskingNeverTakes(After(s, steps[0]), steps[1..], t, p); }
  }

  /** Nobody waits in vain: as long as a request is neither refused nor released, it can move itself, or the
      one that holds the token can; and once the token is free a waiting request can take it. */
  lemma SomeoneCanMove(steps: seq<Step>, t: State, p: nat) returns (step: Step)
    requires Reaches(Start, steps, t) && p in t.reqs && !t.reqs[p].phase.Refused? && !t.reqs[p].phase.Released?
    ensures Enabled(t, step) && !step.Arrive? && !step.End?
    ensures step.p == p || (t.reqs[p].phase.Blocked? && step.p in Holders(t))
  {
    assert Holders(Start) == {};
    RunKeepsInv(Start, steps, t);
    match t.reqs[p].phase
    case Asking => step := Look(p);
    case Blocked =>
      if t.tokens > 0 {
        step := Take(p);
      } else {
        var q :| q in Holders(t);
        step := if t.reqs[q].phase.Taken? then Recheck(q) else Release(q);
      }
    case Taken => step := Recheck(p);
    case Owning => step := Release(p);
  }
}
