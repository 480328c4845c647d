/** Building an answer from the model's output, and checking a response against its evidence.
  *
  * Evidence identifiers are their text form. The claim identifier drawn for the n-th claim of an output
  * is modelled as `n`; all that matters is that no two are equal.
  */
module Answering {
  import opened Wrappers
  import Text

  type Id = string

  datatype Support = Supported | PartiallySupported | Unsupported

  datatype Status = Answered | ClarificationRequired | InsufficientEvidence | Failed

  datatype Band = High | Medium | Low

  datatype Evidence = Evidence(
    id: Id, chunk: Option<Id>, version: Option<Id>, record: Option<string>, principals: seq<string>)

  datatype Locator = AtChunk(chunk: Id, version: Id) | AtRecord(record: string)

  datatype Claim = Claim(id: nat, text: string, factual: bool, evidence: seq<Id>, support: Support)

  datatype Citation = Citation(claim: nat, evidence: Id, locator: Locator, principals: seq<string>)

  datatype Warning = UnsupportedClaims(count: nat) | UnsupportedFact(text: string) | Note(text: string)

  datatype Response = Response(
    answer: Option<string>, status: Status, claims: seq<Claim>, citations: seq<Citation>, confidence: Band,
    warnings: seq<Warning>)

  /** What the model returned. */
  datatype ClaimOutput = ClaimOutput(text: string, factual: bool, support: string, evidence: seq<string>)

  datatype Output = Output(answer: string, claims: seq<ClaimOutput>)

  // --------------------------------------------------------------------- domain rules

  predicate Grounded(c: Claim) {
    c.support != Unsupported
  }

  /** The domain model refuses a claim whose support does not match its evidence. */
  predicate LegalClaim(c: Claim) {
    Grounded(c) <==> c.evidence != []
  }

  /** And a response that has an answer without being answered, or the other way round. */
  predicate LegalResponse(r: Response) {
    && (r.status == Answered <==> r.answer.Some?) && (r.answer.Some? ==> r.answer.value != "")
    && (forall c :: c in r.claims ==> LegalClaim(c))
  }

  // ------------------------------------------------------------------------- building

  function Known(evidence: seq<Evidence>): set<Id> {
    set e | e in evidence :: e.id
  }

  /** The dictionary of the evidence: the last one with an identifier. */
  function Lookup(evidence: seq<Evidence>, n: nat, id: Id): Option<Evidence>
    requires n <= |evidence|
  {
    if n == 0 then None
    else if evidence[n - 1].id == id then Some(evidence[n - 1])
    else Lookup(evidence, n - 1, id)
  }

  lemma {:induction false} LookupKnows(evidence: seq<Evidence>, n: nat, id: Id)
    requires n <= |evidence|
    ensures Lookup(evidence, n, id).Some? <==> id in Known(evidence[..n])
    ensures Lookup(evidence, n, id).Some? ==> Lookup(evidence, n, id).value.id == id
  {
    if n != 0 {
      LookupKnows(evidence, n - 1, id);
      assert evidence[..n] == evidence[..n - 1] + [evidence[n - 1]];
      if id in Known(evidence[..n - 1]) {
        var e :| e in evidence[..n - 1] && e.id == id;
        assert e in evidence[..n];
      } else if evidence[n - 1].id == id {
        assert evidence[n - 1] in evidence[..n];
      }
    }
  }

  /** The identifiers among the first `n` that are known, in order. */
  function Present(ids: seq<Id>, n: nat, known: set<Id>): seq<Id>
    requires n <= |ids|
  {
    if n == 0 then []
    else Present(ids, n - 1, known) + if ids[n - 1] in known then [ids[n - 1]] else []
  }

  lemma {:induction false} PresentIs(ids: seq<Id>, n: nat, known: set<Id>)
    requires n <= |ids|
    ensures |Present(ids, n, known)| <= n
    ensures forall id :: id in Present(ids, n, known) <==> id in ids[..n] && id in known
    ensures |Present(ids, n, known)| == n <==> forall id :: id in ids[..n] ==> id in known
    ensures |Present(ids, n, known)| == n ==> Present(ids, n, known) == ids[..n]
  {
    if n != 0 {
      PresentIs(ids, n - 1, known);
      assert ids[..n] == ids[..n - 1] + [ids[n - 1]];
    }
  }

  function ParseSupport(s: string): Support {
    if s == "supported" then Supported else if s == "partially_supported" then PartiallySupported else Unsupported
  }

  /** The claim made of an output, before the domain model sees it: support without evidence is withdrawn. */
  function ClaimOf(o: ClaimOutput, id: nat, known: set<Id>): Claim {
    var mapped := Present(o.evidence, |o.evidence|, known);
    var support := ParseSupport(o.support);
    Claim(id, o.text, o.factual, mapped, if mapped == [] then Unsupported else support)
  }

  function LocatorOf(e: Evidence): Locator {
    if e.chunk.Some? && e.version.Some? then AtChunk(e.chunk.value, e.version.value)
    else if e.record.Some? && e.record.value != "" then AtRecord(e.record.value)
    else AtRecord(e.id)
  }

  function CitationOf(claim: nat, id: Id, evidence: seq<Evidence>): Citation
    requires Lookup(evidence, |evidence|, id).Some?
  {
    var e := Lookup(evidence, |evidence|, id).value;
    Citation(claim, e.id, LocatorOf(e), e.principals)
  }

  /** One citation for each of the first `n` evidence identifiers of a claim. */
  function Cite(claim: nat, ids: seq<Id>, n: nat, evidence: seq<Evidence>): seq<Citation>
    requires n <= |ids| && forall id :: id in ids ==> Lookup(evidence, |evidence|, id).Some?
  {
    if n == 0 then []
    else
      assert ids[n - 1] in ids;
      Cite(claim, ids, n - 1, evidence) + [CitationOf(claim, ids[n - 1], evidence)]
  }

  lemma MappedAreFound(o: ClaimOutput, id: nat, evidence: seq<Evidence>)
    ensures forall e :: e in ClaimOf(o, id, Known(evidence)).evidence ==> Lookup(evidence, |evidence|, e).Some?
  {
    PresentIs(o.evidence, |o.evidence|, Known(evidence));
    assert evidence[..|evidence|] == evidence;
    forall e | e in ClaimOf(o, id, Known(evidence)).evidence ensures Lookup(evidence, |evidence|, e).Some? {
      LookupKnows(evidence, |evidence|, e);
    }
  }

  datatype Draft = Draft(claims: seq<Claim>, citations: seq<Citation>)

  /** The claims and citations of the first `n` outputs; a claim that the domain model refuses is skipped. */
  function Drafted(os: seq<ClaimOutput>, n: nat, evidence: seq<Evidence>): Draft
    requires n <= |os|
  {
    if n == 0 then Draft([], [])
    else
      var d, c := Drafted(os, n - 1, evidence), ClaimOf(os[n - 1], n - 1, Known(evidence));
      MappedAreFound(os[n - 1], n - 1, evidence);
      if !LegalClaim(c) then d
      else Draft(d.claims + [c], d.citations + Cite(c.id, c.evidence, |c.evidence|, evidence))
  }

  function CountGrounded(cs: seq<Claim>, n: nat): nat
    requires n <= |cs|
  {
    if n == 0 then 0 else CountGrounded(cs, n - 1) + if Grounded(cs[n - 1]) then 1 else 0
  }

  /** The response; an answer of white space only makes the domain model raise. */
  function Built(o: Output, evidence: seq<Evidence>): Result<Response, ()> {
    var d := Drafted(o.claims, |o.claims|, evidence);
    var grounded := CountGrounded(d.claims, |d.claims|);
    if !Text.Blank(o.answer) then
      if grounded == 0 then
        Ok(Response(None, InsufficientEvidence, [], [], Low, [Note("LLM answer had no supported claims")]))
      else Ok(Response(Some(o.answer), Answered, d.claims, d.citations, if grounded >= 3 then High else Medium, []))
    else if o.answer == "" then Ok(Response(None, InsufficientEvidence, d.claims, d.citations, Low, []))
    else Err(())
  }

  method BuildResponse(o: Output, evidence: seq<Evidence>) returns (r: Result<Response, ()>)
    ensures r == Built(o, evidence) && (r.Ok? ==> LegalResponse(r.value))
  {
    AnsweredIsGrounded(o, evidence);
    var claims: seq<Claim> := [];
    var citations: seq<Citation> := [];
    var known := set e | e in evidence :: e.id;
    for i := 0 to |o.claims|
      invariant Draft(claims, citations) == Drafted(o.claims, i, evidence)
    {
      var claim := ClaimOf(o.claims[i], i, known);
      MappedAreFound(o.claims[i], i, evidence);
      if LegalClaim(claim) {
        claims := claims + [claim];
        citations := citations + Cite(claim.id, claim.evidence, |claim.evidence|, evidence);
      }
    }
    var grounded := 0;
    for i := 0 to |claims|
      invariant grounded == CountGrounded(claims, i)
    {
      if Grounded(claims[i]) {
        grounded := grounded + 1;
      }
    }
    if !Text.Blank(o.answer) {
      if grounded == 0 {
        return Ok(Response(None, InsufficientEvidence, [], [], Low, [Note("LLM answer had no supported claims")]));
      }
      return Ok(Response(Some(o.answer), Answered, claims, citations, if grounded >= 3 then High else Medium, []));
    }
    if o.answer != "" {
      return Err(());
    }
    r := Ok(Response(None, InsufficientEvidence, claims, citations, Low, []));
  }

  // ----------------------------------------------------------------------- validating

  /** A claim after its evidence was checked: support is only ever withdrawn. */
  function Checked(c: Claim, known: set<Id>): Claim {
    if c.support == Unsupported then c
    else
      var present := Present(c.evidence, |c.evidence|, known);
      if present == [] then c.(evidence := [], support := Unsupported)
      else if |present| < |c.evidence| then c.(evidence := present, support := PartiallySupported)
      else c
  }

  function CheckedAll(cs: seq<Claim>, n: nat, known: set<Id>): (r: seq<Claim>)
    requires n <= |cs|
    ensures |r| == n
  {
    if n == 0 then [] else CheckedAll(cs, n - 1, known) + [Checked(cs[n - 1], known)]
  }

  predicate Keeps(cit: Citation, claim: nat, known: set<Id>) {
    cit.claim == claim && cit.evidence in known
  }

  /** The citations of one claim whose evidence is known. */
  function CitationsFor(cits: seq<Citation>, n: nat, claim: nat, known: set<Id>): seq<Citation>
    requires n <= |cits|
  {
    if n == 0 then []
    else CitationsFor(cits, n - 1, claim, known) + if Keeps(cits[n - 1], claim, known) then [cits[n - 1]] else []
  }

  /** The citations that are kept, claim by claim. */
  function CitationsKept(cs: seq<Claim>, n: nat, cits: seq<Citation>, known: set<Id>): seq<Citation>
    requires n <= |cs|
  {
    if n == 0 then []
    else CitationsKept(cs, n - 1, cits, known) + CitationsFor(cits, |cits|, cs[n - 1].id, known)
  }

  function CountUnsupported(cs: seq<Claim>, n: nat): nat
    requires n <= |cs|
  {
    if n == 0 then 0 else CountUnsupported(cs, n - 1) + if cs[n - 1].support == Unsupported then 1 else 0
  }

  function Validated(r: Response, evidence: seq<Evidence>): Response {
    var known := Known(evidence);
    var claims := CheckedAll(r.claims, |r.claims|, known);
    var lost := CountUnsupported(claims, |claims|);
    r.(claims := claims, citations := CitationsKept(r.claims, |r.claims|, r.citations, known),
       warnings := r.warnings + if lost > 0 then [UnsupportedClaims(lost)] else [])
  }

  method Validate(r: Response, evidence: seq<Evidence>) returns (validated: Response)
    ensures validated == Validated(r, evidence) && (LegalResponse(r) ==> LegalResponse(validated))
  {
    var known := set e | e in evidence :: e.id;
    var claims: seq<Claim> := [];
    var citations: seq<Citation> := [];
    var warnings, lost := r.warnings, 0;
    for i := 0 to |r.claims|
      invariant claims == CheckedAll(r.claims, i, known)
      invariant lost == CountUnsupported(CheckedAll(r.claims, i, known), i)
      invariant citations == CitationsKept(r.claims, i, r.citations, known)
    {
      var claim := r.claims[i];
      var valid := Checked(claim, known);
      UnsupportedSnoc(claims, valid);
      claims := claims + [valid];
      if valid.support == Unsupported {
        lost := lost + 1;
      }
      ghost var before := citations;
      for j := 0 to |r.citations|
        invariant citations == before + CitationsFor(r.citations, j, claim.id, known)
      {
        var cit := r.citations[j];
        if cit.claim == claim.id {
          if cit.evidence !in known {
            continue;
          }
          citations := citations + [cit];
        }
      }
    }
    if lost > 0 {
      warnings := warnings + [UnsupportedClaims(lost)];
    }
    validated := Response(r.answer, r.status, claims, citations, r.confidence, warnings);
    if LegalResponse(r) {
      ValidatedIsGrounded(r, evidence);
    }
  }

  lemma {:induction false} UnsupportedPrefix(cs: seq<Claim>, more: seq<Claim>, n: nat)
    requires n <= |cs| && cs <= more
    ensures CountUnsupported(cs, n) == CountUnsupported(more, n)
  {
    if n != 0 {
      UnsupportedPrefix(cs, more, n - 1);
    }
  }

  lemma UnsupportedSnoc(cs: seq<Claim>, c: Claim)
    ensures CountUnsupported(cs + [c], |cs| + 1)
         == CountUnsupported(cs, |cs|) + if c.support == Unsupported then 1 else 0
  {
    UnsupportedPrefix(cs, cs + [c], |cs|);
  }

  // -------------------------------------------------------------------------- theorems

  /** A checked claim cites known evidence only, keeps the part of its evidence that is known, and is never
    * better supported than before: fully only if all of it is known, not at all exactly when none is. */
  lemma CheckedIsGrounded(c: Claim, known: set<Id>)
    requires LegalClaim(c)
    ensures var v := Checked(c, known);
            && LegalClaim(v) && v.id == c.id && v.text == c.text && v.factual == c.factual
            && (forall id :: id in v.evidence <==> id in c.evidence && id in known)
            && (v.support == Supported <==> c.support == Supported && forall id :: id in c.evidence ==> id in known)
            && (v.support == Unsupported <==> forall id :: id in c.evidence ==> id !in known)
  {
    PresentIs(c.evidence, |c.evidence|, known);
    assert c.evidence[..|c.evidence|] == c.evidence;
    var present := Present(c.evidence, |c.evidence|, known);
    forall id | id in c.evidence && id in known ensures present != [] {
      assert id in present;
    }
    if present != [] {
      assert present[0] in present;
    }
  }

  /** Checking again changes no claim. */
  lemma CheckingTwice(c: Claim, known: set<Id>)
    requires LegalClaim(c)
    ensures Checked(Checked(c, known), known) == Checked(c, known)
  {
    var v := Checked(c, known);
    CheckedIsGrounded(c, known);
    PresentIs(v.evidence, |v.evidence|, known);
    assert v.evidence[..|v.evidence|] == v.evidence;
  }

  lemma {:induction false} CheckedAllIs(cs: seq<Claim>, n: nat, known: set<Id>, i: nat)
    requires i < n <= |cs|
    ensures CheckedAll(cs, n, known)[i] == Checked(cs[i], known)
  {
    if i < n - 1 {
      CheckedAllIs(cs, n - 1, known, i);
    }
  }

  /** A validated response is legal, and its claims cite only the evidence it was validated against. */
  lemma ValidatedIsGrounded(r: Response, evidence: seq<Evidence>)
    requires LegalResponse(r)
    ensures LegalResponse(Validated(r, evidence))
    ensures forall c, id :: c in Validated(r, evidence).claims && id in c.evidence ==> id in Known(evidence)
  {
    var v, known := Validated(r, evidence), Known(evidence);
    forall c | c in v.claims ensures LegalClaim(c) && forall id :: id in c.evidence ==> id in known {
      var i :| 0 <= i < |v.claims| && v.claims[i] == c;
      CheckedAllIs(r.claims, |r.claims|, known, i);
      assert r.claims[i] in r.claims;
      CheckedIsGrounded(r.claims[i], known);
    }
  }

  lemma {:induction false} CitationsForIs(cits: seq<Citation>, n: nat, claim: nat, known: set<Id>, c: Citation)
    requires n <= |cits|
    ensures c in CitationsFor(cits, n, claim, known) <==> c in cits[..n] && Keeps(c, claim, known)
  {
    if n != 0 {
      CitationsForIs(cits, n - 1, claim, known, c);
      assert cits[..n] == cits[..n - 1] + [cits[n - 1]];
    }
  }

  lemma {:induction false} CitationsKeptIs(cs: seq<Claim>, n: nat, cits: seq<Citation>, known: set<Id>, c: Citation)
    requires n <= |cs|
    ensures c in CitationsKept(cs, n, cits, known)
       <==> c in cits && c.evidence in known && exists i :: 0 <= i < n && cs[i].id == c.claim
  {
    if n != 0 {
      CitationsKeptIs(cs, n - 1, cits, known, c);
      CitationsForIs(cits, |cits|, cs[n - 1].id, known, c);
      assert cits[..|cits|] == cits;
    }
  }

  /** The citations that survive are those of a claim of the response to known evidence. */
  lemma ValidatedCitations(r: Response, evidence: seq<Evidence>, c: Citation)
    ensures c in Validated(r, evidence).citations
       <==> c in r.citations && c.evidence in Known(evidence) && exists claim :: claim in r.claims && claim.id == c.claim
  {
    CitationsKeptIs(r.claims, |r.claims|, r.citations, Known(evidence), c);
    if claim :| claim in r.claims && claim.id == c.claim {
      var i :| 0 <= i < |r.claims| && r.claims[i] == claim;
    }
  }

  // ----------------------------------------------------------- validator after builder

  lemma {:induction false} DraftIsLegal(os: seq<ClaimOutput>, n: nat, evidence: seq<Evidence>)
    requires n <= |os|
    ensures forall c :: c in Drafted(os, n, evidence).claims ==>
              LegalClaim(c) && forall id :: id in c.evidence ==> id in Known(evidence)
  {
    if n != 0 {
      DraftIsLegal(os, n - 1, evidence);
      PresentIs(os[n - 1].evidence, |os[n - 1].evidence|, Known(evidence));
    }
  }

  /** The claims drafted so far have earlier identifiers, and the citations are theirs. */
  ghost predicate Earlier(d: Draft, n: nat) {
    (forall c :: c in d.claims ==> c.id < n) && (forall c :: c in d.citations ==> c.claim < n)
  }

  lemma {:induction false} DraftIsEarlier(os: seq<ClaimOutput>, n: nat, evidence: seq<Evidence>)
    requires n <= |os|
    ensures Earlier(Drafted(os, n, evidence), n)
  {
    if n != 0 {
      DraftIsEarlier(os, n - 1, evidence);
      MappedAreFound(os[n - 1], n - 1, evidence);
      var c := ClaimOf(os[n - 1], n - 1, Known(evidence));
      CiteIs(c.id, c.evidence, |c.evidence|, evidence);
    }
  }

  lemma {:induction false} CiteIs(claim: nat, ids: seq<Id>, n: nat, evidence: seq<Evidence>)
    requires n <= |ids| && forall id :: id in ids ==> Lookup(evidence, |evidence|, id).Some?
    ensures |Cite(claim, ids, n, evidence)| == n
    ensures forall i :: 0 <= i < n ==>
              Cite(claim, ids, n, evidence)[i].claim == claim && Cite(claim, ids, n, evidence)[i].evidence == ids[i]
  {
    if n != 0 {
      CiteIs(claim, ids, n - 1, evidence);
      assert ids[n - 1] in ids;
      LookupKnows(evidence, |evidence|, ids[n - 1]);
    }
  }

  lemma {:induction false} CountGroundedIs(cs: seq<Claim>, n: nat)
    requires n <= |cs|
    ensures CountGrounded(cs, n) > 0 <==> exists i :: 0 <= i < n && Grounded(cs[i])
  {
    if n != 0 {
      CountGroundedIs(cs, n - 1);
    }
  }

  /** The model calls the claim supported, at least in part, and some of its evidence is known. */
  ghost predicate Supporting(o: ClaimOutput, known: set<Id>) {
    (o.support == "supported" || o.support == "partially_supported") && exists id :: id in o.evidence && id in known
  }

  lemma SupportingIs(o: ClaimOutput, id: nat, known: set<Id>)
    ensures var c := ClaimOf(o, id, known); LegalClaim(c) && Grounded(c) <==> Supporting(o, known)
  {
    PresentIs(o.evidence, |o.evidence|, known);
    assert o.evidence[..|o.evidence|] == o.evidence;
    var mapped := Present(o.evidence, |o.evidence|, known);
    if mapped != [] {
      assert mapped[0] in mapped;
    }
  }

  lemma {:induction false} DraftGrounded(os: seq<ClaimOutput>, n: nat, evidence: seq<Evidence>)
    requires n <= |os|
    ensures CountGrounded(Drafted(os, n, evidence).claims, |Drafted(os, n, evidence).claims|) > 0
       <==> exists i :: 0 <= i < n && Supporting(os[i], Known(evidence))
  {
    if n != 0 {
      DraftGrounded(os, n - 1, evidence);
      SupportingIs(os[n - 1], n - 1, Known(evidence));
      var before, after := Drafted(os, n - 1, evidence).claims, Drafted(os, n, evidence).claims;
      if |after| > |before| {
        CountGroundedPrefix(before, after, |before|);
      }
    }
  }

  lemma {:induction false} CountGroundedPrefix(cs: seq<Claim>, more: seq<Claim>, n: nat)
    requires n <= |cs| && cs <= more
    ensures CountGrounded(cs, n) == CountGrounded(more, n)
  {
    if n != 0 {
      CountGroundedPrefix(cs, more, n - 1);
    }
  }

  /** Building raises exactly for an answer that is not empty but all white space. Otherwise the response is
    * legal; it is answered exactly if the model answers and supports some claim with known evidence, and then
    * it carries the model's answer and a claim with known evidence behind it. */
  lemma AnsweredIsGrounded(o: Output, evidence: seq<Evidence>)
    ensures Built(o, evidence).Err? <==> o.answer != "" && Text.Blank(o.answer)
    ensures Built(o, evidence).Ok? ==>
              var r := Built(o, evidence).value;
              && LegalResponse(r)
              && (r.status == Answered <==>
                    !Text.Blank(o.answer) && exists i :: 0 <= i < |o.claims| && Supporting(o.claims[i], Known(evidence)))
              && (r.status == Answered ==>
                    r.answer == Some(o.answer)
                    && exists c :: c in r.claims && Grounded(c) && c.evidence != []
                                   && forall id :: id in c.evidence ==> id in Known(evidence))
  {
    var d := Drafted(o.claims, |o.claims|, evidence);
    DraftIsLegal(o.claims, |o.claims|, evidence);
    DraftGrounded(o.claims, |o.claims|, evidence);
    CountGroundedIs(d.claims, |d.claims|);
    if i :| 0 <= i < |d.claims| && Grounded(d.claims[i]) {
      assert d.claims[i] in d.claims;
    }
  }

  lemma {:induction false} CitationsForAppend(a: seq<Citation>, b: seq<Citation>, n: nat, claim: nat, known: set<Id>)
    requires n <= |b|
    ensures CitationsFor(a + b, |a| + n, claim, known)
         == CitationsFor(a, |a|, claim, known) + CitationsFor(b, n, claim, known)
  {
    if n == 0 {
      CitationsForPrefix(a, a + b, |a|, claim, known);
    } else {
      CitationsForAppend(a, b, n - 1, claim, known);
    }
  }

  lemma {:induction false} CitationsForPrefix(a: seq<Citation>, more: seq<Citation>, n: nat, claim: nat, known: set<Id>)
    requires n <= |a| && a <= more
    ensures CitationsFor(a, n, claim, known) == CitationsFor(more, n, claim, known)
  {
    if n != 0 {
      CitationsForPrefix(a, more, n - 1, claim, known);
    }
  }

  lemma {:induction false} CitationsForNone(a: seq<Citation>, n: nat, claim: nat, known: set<Id>)
    requires n <= |a| && forall c :: c in a ==> c.claim != claim
    ensures CitationsFor(a, n, claim, known) == []
  {
    if n != 0 {
      assert a[n - 1] in a;
      CitationsForNone(a, n - 1, claim, known);
    }
  }

  lemma {:induction false} CitationsForAll(a: seq<Citation>, n: nat, claim: nat, known: set<Id>)
    requires n <= |a| && forall i :: 0 <= i < |a| ==> Keeps(a[i], claim, known)
    ensures CitationsFor(a, n, claim, known) == a[..n]
  {
    if n != 0 {
      CitationsForAll(a, n - 1, claim, known);
      assert a[..n] == a[..n - 1] + [a[n - 1]];
    }
  }

  lemma {:induction false} KeptIgnoresOthers(cs: seq<Claim>, n: nat, a: seq<Citation>, b: seq<Citation>, known: set<Id>)
    requires n <= |cs| && forall c, cit :: c in cs && cit in b ==> cit.claim != c.id
    ensures CitationsKept(cs, n, a + b, known) == CitationsKept(cs, n, a, known)
  {
    if n != 0 {
      assert cs[n - 1] in cs;
      KeptIgnoresOthers(cs, n - 1, a, b, known);
      CitationsForAppend(a, b, |b|, cs[n - 1].id, known);
      CitationsForNone(b, |b|, cs[n - 1].id, known);
      assert |a + b| == |a| + |b|;
    }
  }

  lemma {:induction false} KeptPrefix(cs: seq<Claim>, more: seq<Claim>, n: nat, cits: seq<Citation>, known: set<Id>)
    requires n <= |cs| && cs <= more
    ensures CitationsKept(cs, n, cits, known) == CitationsKept(more, n, cits, known)
  {
    if n != 0 {
      KeptPrefix(cs, more, n - 1, cits, known);
    }
  }

  lemma OthersStay(cs: seq<Claim>, c: Claim, a: seq<Citation>, b: seq<Citation>, known: set<Id>)
    requires forall d, cit :: d in cs && cit in b ==> cit.claim != d.id
    ensures CitationsKept(cs + [c], |cs|, a + b, known) == CitationsKept(cs, |cs|, a, known)
  {
    KeptPrefix(cs, cs + [c], |cs|, a + b, known);
    KeptIgnoresOthers(cs, |cs|, a, b, known);
  }

  lemma OwnAreKept(a: seq<Citation>, b: seq<Citation>, claim: nat, known: set<Id>)
    requires (forall cit :: cit in a ==> cit.claim != claim) && forall i :: 0 <= i < |b| ==> Keeps(b[i], claim, known)
    ensures CitationsFor(a + b, |a + b|, claim, known) == b
  {
    CitationsForAppend(a, b, |b|, claim, known);
    CitationsForNone(a, |a|, claim, known);
    CitationsForAll(b, |b|, claim, known);
    assert b[..|b|] == b;
  }

  /** Adding a claim and its citations to a draft adds exactly those to what is kept. */
  lemma KeptSnoc(cs: seq<Claim>, c: Claim, a: seq<Citation>, b: seq<Citation>, known: set<Id>)
    requires CitationsKept(cs, |cs|, a, known) == a
    requires forall d, cit :: d in cs && cit in b ==> cit.claim != d.id
    requires (forall cit :: cit in a ==> cit.claim != c.id) && forall i :: 0 <= i < |b| ==> Keeps(b[i], c.id, known)
    ensures CitationsKept(cs + [c], |cs| + 1, a + b, known) == a + b
  {
    OthersStay(cs, c, a, b, known);
    OwnAreKept(a, b, c.id, known);
  }

  lemma CitationsAreKept(c: Claim, evidence: seq<Evidence>)
    requires forall id :: id in c.evidence ==> id in Known(evidence) && Lookup(evidence, |evidence|, id).Some?
    ensures var b := Cite(c.id, c.evidence, |c.evidence|, evidence);
            && (forall i :: 0 <= i < |b| ==> Keeps(b[i], c.id, Known(evidence)))
            && (forall cit :: cit in b ==> cit.claim == c.id)
  {
    CiteIs(c.id, c.evidence, |c.evidence|, evidence);
    forall i | 0 <= i < |c.evidence| ensures c.evidence[i] in Known(evidence) {
      assert c.evidence[i] in c.evidence;
    }
  }

  /** Checking the claims of a draft keeps all its citations in place. */
  ghost predicate KeepsAll(d: Draft, known: set<Id>) {
    CitationsKept(d.claims, |d.claims|, d.citations, known) == d.citations
  }

  lemma {:induction false} DraftKeepsCitations(os: seq<ClaimOutput>, n: nat, evidence: seq<Evidence>)
    requires n <= |os|
    ensures KeepsAll(Drafted(os, n, evidence), Known(evidence))
  {
    if n != 0 {
      DraftKeepsCitations(os, n - 1, evidence);
      NextDraftKeeps(os, n, evidence);
    }
  }

  lemma NextDraftKeeps(os: seq<ClaimOutput>, n: nat, evidence: seq<Evidence>)
    requires 0 < n <= |os| && KeepsAll(Drafted(os, n - 1, evidence), Known(evidence))
    ensures KeepsAll(Drafted(os, n, evidence), Known(evidence))
  {
    var o, id, d := os[n - 1], n - 1, Drafted(os, n - 1, evidence);
    var c := ClaimOf(o, id, Known(evidence));
    MappedAreFound(o, id, evidence);
    if LegalClaim(c) {
      DraftIsEarlier(os, n - 1, evidence);
      PresentIs(o.evidence, |o.evidence|, Known(evidence));
      NextClaimIsKept(c, d, evidence);
      assert Drafted(os, n, evidence)
          == Draft(d.claims + [c], d.citations + Cite(c.id, c.evidence, |c.evidence|, evidence));
    }
  }

  lemma NextClaimIsKept(c: Claim, d: Draft, evidence: seq<Evidence>)
    requires KeepsAll(d, Known(evidence)) && Earlier(d, c.id)
    requires forall e :: e in c.evidence ==> e in Known(evidence) && Lookup(evidence, |evidence|, e).Some?
    ensures KeepsAll(Draft(d.claims + [c], d.citations + Cite(c.id, c.evidence, |c.evidence|, evidence)),
                     Known(evidence))
  {
    CitationsAreKept(c, evidence);
    KeptSnoc(d.claims, c, d.citations, Cite(c.id, c.evidence, |c.evidence|, evidence), Known(evidence));
  }

  lemma {:induction false} CheckedAllSame(cs: seq<Claim>, n: nat, known: set<Id>)
    requires n <= |cs| && forall c :: c in cs ==> Checked(c, known) == c
    ensures CheckedAll(cs, n, known) == cs[..n]
  {
    if n != 0 {
      assert cs[n - 1] in cs;
      CheckedAllSame(cs, n - 1, known);
      assert cs[..n] == cs[..n - 1] + [cs[n - 1]];
    }
  }

  /** Validating what was built against the same evidence changes neither claims nor citations. */
  lemma ValidatingBuiltIsIdentity(o: Output, evidence: seq<Evidence>)
    requires Built(o, evidence).Ok?
    ensures var r := Built(o, evidence).value;
            var v := Validated(r, evidence);
            v.claims == r.claims && v.citations == r.citations && v.status == r.status && v.answer == r.answer
  {
    var d, known := Drafted(o.claims, |o.claims|, evidence), Known(evidence);
    DraftIsLegal(o.claims, |o.claims|, evidence);
    DraftKeepsCitations(o.claims, |o.claims|, evidence);
    forall c | c in d.claims ensures Checked(c, known) == c {
      PresentIs(c.evidence, |c.evidence|, known);
      assert c.evidence[..|c.evidence|] == c.evidence;
    }
    CheckedAllSame(d.claims, |d.claims|, known);
    assert d.claims[..|d.claims|] == d.claims;
  }
}
