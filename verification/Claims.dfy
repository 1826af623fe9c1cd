/** Which gold claims a set of passages establishes: the planner's brief of missing claims, the
    evaluator's receipt, and what recovery does to both. */
module Claims {
  import opened Common
  import opened Evidence

  datatype Mode = AnyOf | AllOf

  datatype Claim = Claim(id: string, statement: string, passages: seq<string>, mode: Mode)

  datatype Gold = Gold(answerable: bool, claims: seq<Claim>)

  function SetOf(values: seq<string>): set<string> {
    set v | v in values
  }

  predicate Blank(s: string) { Strip(s) == "" }

  /** What the gold dataclasses insist on. */
  ghost predicate ValidGold(gold: Gold) {
    && (gold.answerable <==> gold.claims != [])
    && (forall c :: c in gold.claims ==> ValidClaim(c))
    && (forall i, j :: 0 <= i < j < |gold.claims| ==> gold.claims[i].id != gold.claims[j].id)
  }

  ghost predicate ValidClaim(c: Claim) {
    && !Blank(c.id) && !Blank(c.statement) && c.passages != []
    && (forall p :: p in c.passages ==> !Blank(p))
    && (forall i, j :: 0 <= i < j < |c.passages| ==> c.passages[i] != c.passages[j])
  }

  predicate Complete(c: Claim, observed: set<string>) {
    var required := SetOf(c.passages);
    var matched := required * observed;
    if c.mode == AnyOf then matched != {} else required <= matched
  }

  function Missing(claims: seq<Claim>, observed: set<string>): seq<Claim> {
    if claims == [] then []
    else
      var n := |claims| - 1;
      Missing(claims[..n], observed) + (if Complete(claims[n], observed) then [] else [claims[n]])
  }

  function Covered(claims: seq<Claim>, observed: set<string>): seq<Claim> {
    if claims == [] then []
    else
      var n := |claims| - 1;
      Covered(claims[..n], observed) + (if Complete(claims[n], observed) then [claims[n]] else [])
  }

  function Ids(claims: seq<Claim>): (r: seq<string>)
    ensures |r| == |claims|
  {
    seq(|claims|, i requires 0 <= i < |claims| => claims[i].id)
  }

  /** One more claim, for the loops below. */
  lemma OneMore(claims: seq<Claim>, i: nat, observed: set<string>)
    requires i < |claims|
    ensures var c, before := claims[i], claims[..i];
      && Missing(claims[..i + 1], observed) == Missing(before, observed) + (if Complete(c, observed) then [] else [c])
      && Ids(Missing(claims[..i + 1], observed)) == Ids(Missing(before, observed)) + (if Complete(c, observed) then [] else [c.id])
      && Ids(Covered(claims[..i + 1], observed)) == Ids(Covered(before, observed)) + (if Complete(c, observed) then [c.id] else [])
  {
    assert claims[..i + 1][..i] == claims[..i];
  }

  // ----- Passage ids of evidence -----

  function AddNew(ids: seq<string>, id: string): seq<string> {
    if id in ids then ids else ids + [id]
  }

  /** The distinct non-blank passage ids, stripped, in order. */
  function PassageIds(evidence: seq<Item>): seq<string> {
    if evidence == [] then []
    else
      var before := PassageIds(evidence[..|evidence| - 1]);
      var id := Strip(evidence[|evidence| - 1].passage);
      if id == "" then before else AddNew(before, id)
  }

  /** The same ids as the report reader takes them: it refuses a blank id instead of skipping it. */
  method EvidencePassageIds(evidence: seq<Item>) returns (r: Result<seq<string>, string>)
    ensures r == if AnyBlank(evidence) then Err("generation evidence requires passage ids")
                 else Ok(PassageIds(evidence))
  {
    var passages: seq<string> := [];
    for i := 0 to |evidence|
      invariant passages == PassageIds(evidence[..i])
      invariant forall j :: 0 <= j < i ==> !Blank(evidence[j].passage)
    {
      var id := Strip(evidence[i].passage);
      if id == "" {
        assert Blank(evidence[i].passage);
        return Err("generation evidence requires passage ids");
      }
      OneMoreId(evidence, i);
      passages := AddNew(passages, id);
    }
    assert evidence[..|evidence|] == evidence;
    return Ok(passages);
  }

  lemma OneMoreId(evidence: seq<Item>, i: nat)
    requires i < |evidence| && !Blank(evidence[i].passage)
    ensures PassageIds(evidence[..i + 1]) == AddNew(PassageIds(evidence[..i]), Strip(evidence[i].passage))
  {
    assert evidence[..i + 1][..i] == evidence[..i];
  }

  ghost predicate AnyBlank(evidence: seq<Item>) {
    exists i :: 0 <= i < |evidence| && Blank(evidence[i].passage)
  }

  lemma {:induction false} PassageIdsAreStripped(evidence: seq<Item>)
    ensures forall id :: id in PassageIds(evidence) <==>
              id != "" && exists item :: item in evidence && Strip(item.passage) == id
  {
    if evidence != [] {
      var n := |evidence| - 1;
      PassageIdsAreStripped(evidence[..n]);
      forall id ensures id in PassageIds(evidence) <==>
                          id != "" && exists item :: item in evidence && Strip(item.passage) == id
      {
        if item :| item in evidence && Strip(item.passage) == id {
          assert item in evidence[..n] || item == evidence[n];
        }
        if id in PassageIds(evidence) && id !in PassageIds(evidence[..n]) {
          assert evidence[n] in evidence;
        }
      }
    }
  }

  /** What missing_claim_brief compares with: ids stripped again, blanks dropped again. */
  function Observed(ids: seq<string>): set<string> {
    set id | id in ids && Strip(id) != "" :: Strip(id)
  }

  lemma ObservedIsSetOfIds(evidence: seq<Item>)
    ensures Observed(PassageIds(evidence)) == SetOf(PassageIds(evidence))
  {
    var ids := PassageIds(evidence);
    PassageIdsAreStripped(evidence);
    forall id | id in ids ensures Strip(id) == id && id != "" {
      var item :| item in evidence && Strip(item.passage) == id;
      StripIdempotent(item.passage);
    }
  }

  /** Stripped ids that are not blank. */
  lemma ObservedMeans(ids: seq<string>, p: string)
    ensures p in Observed(ids) <==> p != "" && exists id :: id in ids && Strip(id) == p
  {
  }

  // ----- What a claim asks for -----

  /** A claim in mode all lacks one of its passages; a claim in mode any lacks every one. */
  ghost predicate Unmet(c: Claim, seen: set<string>) {
    match c.mode
    case AllOf => exists p :: p in c.passages && p !in seen
    case AnyOf => forall p :: p in c.passages ==> p !in seen
  }

  lemma CompleteIsMet(c: Claim, seen: set<string>)
    ensures Complete(c, seen) <==> !Unmet(c, seen)
  {
    var required := SetOf(c.passages);
    match c.mode
    case AllOf =>
      if p :| p in c.passages && p !in seen { assert p in required && p !in required * seen; }
      if !(required <= required * seen) {
        var p :| p in required && p !in required * seen;
        assert p in c.passages && p !in seen;
      }
    case AnyOf =>
      if p :| p in c.passages && p in seen { assert p in required * seen; }
      if required * seen != {} {
        var p :| p in required * seen;
        assert p in c.passages && p in seen;
      }
  }

  /** `at` picks `part` out of `all`, in order. */
  ghost predicate Picks(part: seq<Claim>, all: seq<Claim>, at: seq<nat>) {
    && |at| == |part|
    && (forall i, j :: 0 <= i < j < |at| ==> at[i] < at[j])
    && (forall i :: 0 <= i < |at| ==> at[i] < |all| && all[at[i]] == part[i])
  }

  /** The missing claims are the unmet ones, in the order of the gold claims. */
  lemma {:induction false} MissingAreUnmet(claims: seq<Claim>, seen: set<string>) returns (at: seq<nat>)
    ensures Picks(Missing(claims, seen), claims, at)
    ensures forall i :: 0 <= i < |claims| ==> (i in at <==> Unmet(claims[i], seen))
  {
    at := [];
    if claims != [] {
      var n := |claims| - 1;
      at := MissingAreUnmet(claims[..n], seen);
      CompleteIsMet(claims[n], seen);
      var before := at;
      if !Complete(claims[n], seen) { at := at + [n]; }
      forall i | 0 <= i < |claims| ensures i in at <==> Unmet(claims[i], seen) {
        if i < n { assert claims[..n][i] == claims[i]; } else { assert i !in before; }
      }
    }
  }

  // ----- The planner's brief -----

  method MissingClaimBrief(gold: Gold, passageIds: seq<string>) returns (missing: seq<Claim>)
    ensures missing == if gold.answerable then Missing(gold.claims, Observed(passageIds)) else []
    ensures gold.answerable ==> exists at ::
      Picks(missing, gold.claims, at)
      && forall i :: 0 <= i < |gold.claims| ==> (i in at <==> Unmet(gold.claims[i], Observed(passageIds)))
  {
    missing := [];
    if !gold.answerable { return; }
    var observed := Observed(passageIds);
    for i := 0 to |gold.claims|
      invariant missing == Missing(gold.claims[..i], observed)
    {
      OneMore(gold.claims, i, observed);
      if !Complete(gold.claims[i], observed) { missing := missing + [gold.claims[i]]; }
    }
    assert gold.claims[..|gold.claims|] == gold.claims;
    ghost var at := MissingAreUnmet(gold.claims, observed);
  }

  // ----- The evaluator's receipt for a completed case -----

  datatype Receipt = Receipt(
    firstCovered: seq<string>, finalCovered: seq<string>, missing: seq<string>,
    firstCoverage: real, finalCoverage: real, firstComplete: bool, evidenceComplete: bool)

  /** Coverage before it is rounded. */
  function Coverage(covered: nat, required: nat): real {
    if required == 0 then 0.0 else covered as real / required as real
  }

  /** Evidence suffices when the case is answerable and every claim is established. */
  ghost predicate EvidenceComplete(gold: Gold, observed: set<string>) {
    gold.answerable && forall c :: c in gold.claims ==> Complete(c, observed)
  }

  method EvaluateCase(gold: Gold, firstIds: seq<string>, finalIds: seq<string>) returns (r: Receipt)
    requires ValidGold(gold)
    ensures r.firstCovered == Ids(Covered(gold.claims, SetOf(firstIds)))
    ensures r.finalCovered == Ids(Covered(gold.claims, SetOf(finalIds)))
    ensures r.missing == Ids(Missing(gold.claims, SetOf(finalIds)))
    ensures forall c :: c in gold.claims ==> (c.id in r.missing <==> Unmet(c, SetOf(finalIds)))
    ensures forall c :: c in gold.claims ==> (c.id in r.finalCovered <==> !Unmet(c, SetOf(finalIds)))
    ensures forall c :: c in gold.claims ==> (c.id in r.firstCovered <==> !Unmet(c, SetOf(firstIds)))
    ensures r.evidenceComplete <==> gold.answerable && forall c :: c in gold.claims ==> !Unmet(c, SetOf(finalIds))
    ensures r.firstComplete <==> gold.answerable && forall c :: c in gold.claims ==> !Unmet(c, SetOf(firstIds))
    ensures r.firstCoverage == Coverage(|r.firstCovered|, |gold.claims|)
    ensures r.finalCoverage == Coverage(|r.finalCovered|, |gold.claims|)
    ensures r.firstComplete <==> EvidenceComplete(gold, SetOf(firstIds))
    ensures r.evidenceComplete <==> EvidenceComplete(gold, SetOf(finalIds))
  {
    var firstPassages, finalPassages := SetOf(firstIds), SetOf(finalIds);
    var firstCovered: seq<string>, finalCovered: seq<string> := [], [];
    for i := 0 to |gold.claims|
      invariant firstCovered == Ids(Covered(gold.claims[..i], firstPassages))
      invariant finalCovered == Ids(Covered(gold.claims[..i], finalPassages))
    {
      OneMore(gold.claims, i, firstPassages);
      OneMore(gold.claims, i, finalPassages);
      if Complete(gold.claims[i], firstPassages) { firstCovered := firstCovered + [gold.claims[i].id]; }
      if Complete(gold.claims[i], finalPassages) { finalCovered := finalCovered + [gold.claims[i].id]; }
    }
    assert gold.claims[..|gold.claims|] == gold.claims;
    var required := |gold.claims|;
    CompleteByCount(gold, firstPassages);
    CompleteByCount(gold, finalPassages);
    var missing: seq<string> := [];
    for i := 0 to |gold.claims|
      invariant missing == Ids(Missing(gold.claims[..i], finalPassages))
    {
      OneMore(gold.claims, i, finalPassages);
      IdCoveredIffComplete(gold.claims, finalPassages, i);
      if gold.claims[i].id !in finalCovered { missing := missing + [gold.claims[i].id]; }
    }
    ReceiptMeans(gold, firstPassages);
    ReceiptMeans(gold, finalPassages);
    r := Receipt(firstCovered, finalCovered, missing,
                 Coverage(|firstCovered|, required), Coverage(|finalCovered|, required),
                 gold.answerable && required > 0 && |firstCovered| == required,
                 gold.answerable && required > 0 && |finalCovered| == required);
  }

  lemma {:induction false} CoveredOrMissing(claims: seq<Claim>, observed: set<string>)
    ensures |Covered(claims, observed)| + |Missing(claims, observed)| == |claims|
    ensures forall c :: c in Missing(claims, observed) <==> c in claims && !Complete(c, observed)
    ensures forall c :: c in Covered(claims, observed) <==> c in claims && Complete(c, observed)
  {
    if claims != [] {
      var n := |claims| - 1;
      CoveredOrMissing(claims[..n], observed);
      assert forall c :: c in claims <==> c == claims[n] || c in claims[..n];
    }
  }

  /** Counting covered claims decides completeness. */
  lemma CompleteByCount(gold: Gold, observed: set<string>)
    requires ValidGold(gold)
    ensures EvidenceComplete(gold, observed) <==>
              gold.answerable && |gold.claims| > 0 && |Ids(Covered(gold.claims, observed))| == |gold.claims|
  {
    CoveredOrMissing(gold.claims, observed);
    var missing := Missing(gold.claims, observed);
    if missing != [] { assert missing[0] in missing; }
  }

  lemma IdCoveredIffComplete(claims: seq<Claim>, observed: set<string>, i: nat)
    requires forall i, j :: 0 <= i < j < |claims| ==> claims[i].id != claims[j].id
    requires i < |claims|
    ensures claims[i].id in Ids(Covered(claims, observed)) <==> Complete(claims[i], observed)
  {
    CoveredOrMissing(claims, observed);
    var covered := Covered(claims, observed);
    if Complete(claims[i], observed) {
      var k :| 0 <= k < |covered| && covered[k] == claims[i];
      assert Ids(covered)[k] == claims[i].id;
    }
    if claims[i].id in Ids(covered) {
      var k :| 0 <= k < |covered| && Ids(covered)[k] == claims[i].id;
      assert covered[k] in claims;
      var j :| 0 <= j < |claims| && claims[j] == covered[k];
      assert j == i;
    }
  }

  lemma IdMissingIffNot(claims: seq<Claim>, observed: set<string>, i: nat)
    requires forall i, j :: 0 <= i < j < |claims| ==> claims[i].id != claims[j].id
    requires i < |claims|
    ensures claims[i].id in Ids(Missing(claims, observed)) <==> !Complete(claims[i], observed)
  {
    CoveredOrMissing(claims, observed);
    var missing := Missing(claims, observed);
    if !Complete(claims[i], observed) {
      var k :| 0 <= k < |missing| && missing[k] == claims[i];
      assert Ids(missing)[k] == claims[i].id;
    }
    if claims[i].id in Ids(missing) {
      var k :| 0 <= k < |missing| && Ids(missing)[k] == claims[i].id;
      assert missing[k] in claims;
      var j :| 0 <= j < |claims| && claims[j] == missing[k];
      assert j == i;
    }
  }

  /** What the ids of a receipt say about each claim. */
  lemma ReceiptMeans(gold: Gold, seen: set<string>)
    requires ValidGold(gold)
    ensures forall c :: c in gold.claims ==> (c.id in Ids(Missing(gold.claims, seen)) <==> Unmet(c, seen))
    ensures forall c :: c in gold.claims ==> (c.id in Ids(Covered(gold.claims, seen)) <==> !Unmet(c, seen))
    ensures EvidenceComplete(gold, seen) <==> gold.answerable && forall c :: c in gold.claims ==> !Unmet(c, seen)
  {
    forall c | c in gold.claims
      ensures c.id in Ids(Missing(gold.claims, seen)) <==> Unmet(c, seen)
      ensures c.id in Ids(Covered(gold.claims, seen)) <==> !Unmet(c, seen)
      ensures Complete(c, seen) <==> !Unmet(c, seen)
    {
      var i :| 0 <= i < |gold.claims| && gold.claims[i] == c;
      CompleteIsMet(c, seen);
      IdMissingIffNot(gold.claims, seen, i);
      IdCoveredIffComplete(gold.claims, seen, i);
    }
  }

  // ----- Laws -----

  lemma MoreObservedMoreComplete(c: Claim, less: set<string>, more: set<string>)
    requires less <= more && Complete(c, less)
    ensures Complete(c, more)
  {
    if c.mode == AnyOf {
      var p :| p in SetOf(c.passages) * less;
      assert p in SetOf(c.passages) * more;
    }
  }

  lemma {:induction false} MissingShrinks(claims: seq<Claim>, less: set<string>, more: set<string>)
    requires less <= more
    ensures Missing(claims, more) == Missing(Missing(claims, less), more)
    ensures |Covered(claims, less)| <= |Covered(claims, more)|
  {
    if claims != [] {
      var n := |claims| - 1;
      MissingShrinks(claims[..n], less, more);
      if Complete(claims[n], less) {
        MoreObservedMoreComplete(claims[n], less, more);
        assert Missing(claims, less) == Missing(claims[..n], less);
        assert Missing(claims, more) == Missing(claims[..n], more);
      } else {
        var before := Missing(claims[..n], less);
        assert (before + [claims[n]])[..|before|] == before;
      }
    }
  }

  /** Recovery, end to end. From any hits and any rewrites: the missing claims after recovery are
      those before it with the ones now covered taken out, in both coverage modes, and the case's
      coverage gain is not negative. */
  lemma RecoveryNeverLosesCoverage(gold: Gold, hits: seq<Item>, rewrites: seq<seq<Item>>)
    ensures var first := PassageIds(Bounded(hits));
      var final := PassageIds(Recover(Bounded(hits), rewrites));
      && Missing(gold.claims, Observed(final)) == Missing(Missing(gold.claims, Observed(first)), Observed(final))
      && Coverage(|Covered(gold.claims, SetOf(final))|, |gold.claims|)
         - Coverage(|Covered(gold.claims, SetOf(first))|, |gold.claims|) >= 0.0
  {
    var before, after := Bounded(hits), Recover(Bounded(hits), rewrites);
    var first, final := PassageIds(before), PassageIds(after);
    RecoveryKeepsPassages(hits, rewrites);
    PassageIdsAreStripped(before);
    PassageIdsAreStripped(after);
    forall id | id in first ensures id in final {
      var item :| item in before && Strip(item.passage) == id;
      assert item.passage in Passages(after);
      var other :| other in after && other.passage == item.passage;
    }
    ObservedIsSetOfIds(before);
    ObservedIsSetOfIds(after);
    MissingShrinks(gold.claims, SetOf(first), SetOf(final));
    CoverageMonotone(|Covered(gold.claims, SetOf(first))|, |Covered(gold.claims, SetOf(final))|, |gold.claims|);
  }

  /** Coverage is the covered share of the required claims; none is covered where none is required. */
  lemma CoverageIsShare(covered: nat, required: nat)
    requires covered <= required
    ensures Coverage(covered, required) * required as real == covered as real
    ensures required == 0 ==> Coverage(covered, required) == 0.0
  {
  }

  lemma CoverageMonotone(a: nat, b: nat, required: nat)
    requires a <= b
    ensures Coverage(a, required) <= Coverage(b, required)
  {
    if required > 0 {
      assert Coverage(b, required) == Coverage(a, required) + (b - a) as real / required as real;
    }
  }

  /** The brief handed to the planner is empty exactly when the evaluator would call the evidence
      complete, if and only if the case is answerable: for an unanswerable case the brief is always
      empty and the evaluator never says complete. */
  lemma BriefEmptyIffEvidenceComplete(gold: Gold, evidence: seq<Item>)
    requires ValidGold(gold)
    ensures var ids := PassageIds(evidence);
      var brief := if gold.answerable then Missing(gold.claims, Observed(ids)) else [];
      && ((brief == [] <==> EvidenceComplete(gold, SetOf(ids))) <==> gold.answerable)
      && (gold.answerable ==> Ids(brief) == Ids(Missing(gold.claims, SetOf(ids))))
  {
    ObservedIsSetOfIds(evidence);
    CoveredOrMissing(gold.claims, SetOf(PassageIds(evidence)));
    var missing := Missing(gold.claims, SetOf(PassageIds(evidence)));
    if missing != [] { assert missing[0] in missing; }
  }
}
