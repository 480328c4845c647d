/** The query workflow: execute, validate, decide, and retry a bounded number of times. */
module QueryWorkflow {
  import opened Basics
  import opened Wrappers
  import opened Answering

  /** How one execution ends: an exception, or a response with the evidence it was made from. */
  datatype Attempt = Raised(error: string) | Returned(response: Response, evidence: seq<Evidence>)

  datatype State = State(
    response: Option<Response>, evidence: seq<Evidence>, error: Option<string>, retries: nat, maxRetries: int)

  // ---------------------------------------------------------------------------- nodes

  /** An exception keeps the response of an earlier attempt in the state. */
  function ExecuteNode(s: State, a: Attempt): State {
    match a
    case Raised(e) => s.(error := Some(e))
    case Returned(r, evidence) => s.(response := Some(r), evidence := evidence, error := None)
  }

  function UnsupportedFacts(cs: seq<Claim>, n: nat): seq<Claim>
    requires n <= |cs|
  {
    if n == 0 then []
    else
      var c := cs[n - 1];
      UnsupportedFacts(cs, n - 1) + if c.factual && c.support == Unsupported then [c] else []
  }

  /** Warnings for the first claims, three at most. */
  function FactWarnings(cs: seq<Claim>, n: nat): seq<Warning>
    requires n <= |cs|
  {
    if n == 0 then [] else FactWarnings(cs, n - 1) + [UnsupportedFact(Cut(cs[n - 1].text, 50))]
  }

  /** The validated response; one unsupported factual claim withdraws the whole answer. */
  function Screened(r: Response, evidence: seq<Evidence>): Response {
    var v := Validated(r, evidence);
    var bad := UnsupportedFacts(v.claims, |v.claims|);
    if bad == [] then v
    else
      Response(None, InsufficientEvidence, [], [], Low,
               v.warnings + FactWarnings(bad, if |bad| <= 3 then |bad| else 3))
  }

  function ValidateNode(s: State): State {
    if s.response.None? then s else s.(response := Some(Screened(s.response.value, s.evidence)))
  }

  datatype Route = ToRetry | ToFail | ToEnd

  function Decide(s: State): Route {
    var again := if s.retries < s.maxRetries then ToRetry else ToFail;
    if s.error.Some? then again
    else if s.response.None? then ToFail
    else
      match s.response.value.status
      case Failed => ToFail
      case ClarificationRequired => ToEnd
      case InsufficientEvidence => again
      case Answered => ToEnd
  }

  function RetryNode(s: State): State {
    s.(retries := s.retries + 1)
  }

  const GAVE_UP := "Query workflow failed after retries"

  function FailedWith(error: Option<string>): Response {
    Response(None, Failed, [], [], Low, [Note(if error.Some? && error.value != "" then error.value else GAVE_UP)])
  }

  function FailNode(s: State): State {
    s.(response := Some(FailedWith(s.error)))
  }

  /** The graph run on the attempts of `stream` from the `n`-th on: the last state, and how many were made. */
  function Drive(s: State, stream: nat -> Attempt, n: nat): (r: (State, nat))
    ensures r.1 > n
    decreases if s.retries < s.maxRetries then s.maxRetries - s.retries else 0
  {
    var t := ValidateNode(ExecuteNode(s, stream(n)));
    match Decide(t)
    case ToRetry => Drive(RetryNode(t), stream, n + 1)
    case ToFail => (FailNode(t), n + 1)
    case ToEnd => (t, n + 1)
  }

  /** What the caller gets, and the number of executions. */
  function Invoke(stream: nat -> Attempt, maxRetries: int): (r: (Response, nat))
    ensures r.1 > 0
  {
    var (s, attempts) := Drive(State(None, [], None, 0, maxRetries), stream, 0);
    match s.response
    case Some(r) => (r, attempts)
    case None => (Response(None, Failed, [], [], Low, [Note("Query workflow produced no response")]), attempts)
  }

  // ------------------------------------------------------------------------ reference

  datatype Verdict = Accept | Refuse | Again

  /** What one attempt is worth on its own. */
  function Judge(a: Attempt): Verdict {
    match a
    case Raised(_) => Again
    case Returned(r, evidence) =>
      match Screened(r, evidence).status
      case Answered => Accept
      case ClarificationRequired => Accept
      case InsufficientEvidence => Again
      case Failed => Refuse
  }

  /** The response for the attempt that the run ends with. */
  function Outcome(a: Attempt): Response {
    if Judge(a) == Accept then Screened(a.response, a.evidence)
    else FailedWith(if a.Raised? then Some(a.error) else None)
  }

  /** The first attempt from `n` on that is not worth repeating, or the last that is allowed. */
  function Decisive(stream: nat -> Attempt, n: nat, left: nat): nat
    decreases left
  {
    if left == 0 || Judge(stream(n)) != Again then n else Decisive(stream, n + 1, left - 1)
  }

  lemma AttemptsAreIndependent(s: State, a: Attempt)
    ensures var t := ValidateNode(ExecuteNode(s, a));
            && t.retries == s.retries && t.maxRetries == s.maxRetries
            && Decide(t) == (match Judge(a)
                             case Accept => ToEnd
                             case Refuse => ToFail
                             case Again => if s.retries < s.maxRetries then ToRetry else ToFail)
            && (Judge(a) == Accept ==> t.response == Some(Outcome(a)))
            && (Judge(a) != Accept ==> FailNode(t).response == Some(Outcome(a)))
  {
  }

  /** An attempt ends the loop with its own worth, or is worth repeating while retries are left. */
  lemma DriveStep(s: State, stream: nat -> Attempt, n: nat) returns (next: State)
    ensures next.retries == s.retries + 1 && next.maxRetries == s.maxRetries
    ensures if Judge(stream(n)) == Again && s.retries < s.maxRetries then Drive(s, stream, n) == Drive(next, stream, n + 1)
            else Drive(s, stream, n).0.response == Some(Outcome(stream(n))) && Drive(s, stream, n).1 == n + 1
  {
    AttemptsAreIndependent(s, stream(n));
    next := RetryNode(ValidateNode(ExecuteNode(s, stream(n))));
  }

  lemma {:induction false} DriveIsDecisive(s: State, stream: nat -> Attempt, n: nat, left: nat)
    requires left == if s.retries < s.maxRetries then s.maxRetries - s.retries else 0
    ensures var last := Decisive(stream, n, left);
            Drive(s, stream, n).0.response == Some(Outcome(stream(last))) && Drive(s, stream, n).1 == last + 1
    decreases left
  {
    var next := DriveStep(s, stream, n);
    if left != 0 && Judge(stream(n)) == Again {
      DriveIsDecisive(next, stream, n + 1, left - 1);
    }
  }

  function Allowed(maxRetries: int): nat {
    if maxRetries > 0 then maxRetries else 0
  }

  /** The workflow returns what the first decisive attempt is worth, or the last one allowed: nothing of an
    * earlier attempt, not even a response that an exception left in the state, gets into the result. */
  lemma InvokeIsDecisive(stream: nat -> Attempt, maxRetries: int)
    ensures var last := Decisive(stream, 0, Allowed(maxRetries));
            Invoke(stream, maxRetries) == (Outcome(stream(last)), last + 1)
  {
    DriveIsDecisive(State(None, [], None, 0, maxRetries), stream, 0, Allowed(maxRetries));
  }

  lemma {:induction false} DecisiveIs(stream: nat -> Attempt, n: nat, left: nat)
    ensures var last := Decisive(stream, n, left);
            && n <= last <= n + left && (Judge(stream(last)) != Again || last == n + left)
            && forall i :: n <= i < last ==> Judge(stream(i)) == Again
    decreases left
  {
    if left != 0 && Judge(stream(n)) == Again {
      DecisiveIs(stream, n + 1, left - 1);
    }
  }

  /** At most `maxRetries + 1` executions, of which all but the last were worth repeating, and a result that
    * is answered, asks back, or failed. */
  lemma RetriesAreBounded(stream: nat -> Attempt, maxRetries: int)
    ensures var (r, attempts) := Invoke(stream, maxRetries);
            && 1 <= attempts <= Allowed(maxRetries) + 1
            && (forall i :: 0 <= i < attempts - 1 ==> Judge(stream(i)) == Again)
            && (Judge(stream(attempts - 1)) == Again ==> attempts == Allowed(maxRetries) + 1)
            && r.status in {Answered, ClarificationRequired, Failed}
  {
    InvokeIsDecisive(stream, maxRetries);
    DecisiveIs(stream, 0, Allowed(maxRetries));
  }

  lemma {:induction false} UnsupportedFactsIs(cs: seq<Claim>, n: nat)
    requires n <= |cs|
    ensures UnsupportedFacts(cs, n) == [] <==>
              forall i :: 0 <= i < n ==> !(cs[i].factual && cs[i].support == Unsupported)
  {
    if n != 0 {
      UnsupportedFactsIs(cs, n - 1);
    }
  }

  /** An answer comes from the last attempt, which succeeded; it is that attempt's answer, its claims cite
    * that attempt's evidence only, and no factual claim is unsupported. */
  lemma AnswersAreGrounded(stream: nat -> Attempt, maxRetries: int)
    requires Invoke(stream, maxRetries).0.status == Answered
    requires forall i :: stream(i).Returned? ==> LegalResponse(stream(i).response)
    ensures var (r, attempts) := Invoke(stream, maxRetries);
            var a := stream(attempts - 1);
            && a.Returned? && a.response.status == Answered && r.answer == a.response.answer && LegalResponse(r)
            && (forall c, id :: c in r.claims && id in c.evidence ==> id in Known(a.evidence))
            && (forall c :: c in r.claims && c.factual ==> c.support != Unsupported)
            && (forall c :: c in r.citations ==> c in a.response.citations && c.evidence in Known(a.evidence))
  {
    InvokeIsDecisive(stream, maxRetries);
    var (r, attempts) := Invoke(stream, maxRetries);
    var a := stream(attempts - 1);
    ValidatedIsGrounded(a.response, a.evidence);
    var v := Validated(a.response, a.evidence);
    UnsupportedFactsIs(v.claims, |v.claims|);
    forall c | c in r.citations ensures c in a.response.citations && c.evidence in Known(a.evidence) {
      ValidatedCitations(a.response, a.evidence, c);
    }
  }

  /** A built answer without unsupported factual claims passes through the workflow as it is; any other built
    * answer is withdrawn. */
  lemma BuiltAnswersPass(o: Output, evidence: seq<Evidence>)
    requires Built(o, evidence).Ok? && Built(o, evidence).value.status == Answered
    ensures var r := Built(o, evidence).value;
            if forall c :: c in r.claims && c.factual ==> c.support != Unsupported then
              Judge(Returned(r, evidence)) == Accept
              && Screened(r, evidence).claims == r.claims && Screened(r, evidence).citations == r.citations
              && Screened(r, evidence).answer == Some(o.answer)
            else Judge(Returned(r, evidence)) == Again
  {
    var r := Built(o, evidence).value;
    ValidatingBuiltIsIdentity(o, evidence);
    AnsweredIsGrounded(o, evidence);
    UnsupportedFactsIs(r.claims, |r.claims|);
    forall i | 0 <= i < |r.claims| ensures r.claims[i] in r.claims {
    }
  }
}
