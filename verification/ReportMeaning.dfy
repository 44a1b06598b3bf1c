/** What recorded looks and the claims behind them come to, told act by act. */
module ReportMeaning {
  import opened Money
  import opened DigestChain
  import opened InferenceLedger
  import opened StudyReports
  import opened Tables
  import opened Text

  // ---------------------------------------------------------------- acts on the same question

  /** Two acts read the same evidence on one estimand, endpoint and slice. */
  ghost predicate SameQuestion(a: Request, b: Request) {
    && a.estimandId == b.estimandId && a.endpoint == b.endpoint && a.sliceId == b.sliceId
    && a.evidenceDigest == b.evidenceDigest
  }

  lemma KeyTellsQuestion(a: Request, b: Request)
    ensures KeyOf(a) == KeyOf(b) <==> SameQuestion(a, b)
  {
  }

  ghost predicate Asked(acts: seq<Act>, r: Request) {
    exists i :: 0 <= i < |acts| && SameQuestion(acts[i].body.request, r)
  }

  lemma AskedIsSeen(acts: seq<Act>, r: Request)
    ensures Asked(acts, r) <==> SeenKey(acts, KeyOf(r))
  {
    forall i | 0 <= i < |acts| ensures SameQuestion(acts[i].body.request, r) <==> ActKey(acts[i]) == KeyOf(r) {
      KeyTellsQuestion(acts[i].body.request, r);
    }
  }

  // ---------------------------------------------------------------- one look

  /** The act at i is the next of its ledger: the request it was given, the look, the study, whether the
      question is new, and the digest of the act before it. */
  ghost predicate NextAct(h: Digest<ActBody>, l: Ledger, look: nat, acts: seq<Act>, i: nat, r: Request)
    requires i < |acts|
  {
    var a := acts[i];
    && a.sequence == i + 1 && a.body.lookSequence == look
    && a.body.studyId == l.studyId && a.body.protocolHash == l.protocolHash && a.body.request == r
    && (a.body.novelty == FirstOfKey <==> !Asked(acts[..i], r))
    && a.previous == Some(if i == |l.acts| then l.ledgerDigest else if i == 0 then "" else acts[i - 1].digest)
    && a.digest == h(a.sequence, a.body, a.previous)
  }

  /** A ledger behind one more look: one act for each request, in order, and nothing else changed. */
  ghost predicate LookTaken(h: Digest<ActBody>, l: Ledger, look: nat, requests: seq<Request>, after: Ledger) {
    && |after.acts| == |l.acts| + |requests| && after.acts[..|l.acts|] == l.acts
    && (forall n :: 0 <= n < |requests| ==> NextAct(h, l, look, after.acts, |l.acts| + n, requests[n]))
    && after.ledgerDigest == (if requests == [] then l.ledgerDigest else after.acts[|after.acts| - 1].digest)
    && after.studyId == l.studyId && after.protocolHash == l.protocolHash && after.plan == l.plan
    && after.genesisDigest == l.genesisDigest
  }

  lemma {:induction false} RecordAllSays(h: Digest<ActBody>, l: Ledger, look: nat, requests: seq<Request>)
    ensures LookTaken(h, l, look, requests, RecordAll(h, l, look, requests))
    decreases |requests|
  {
    if requests != [] {
      var n := |requests| - 1;
      RecordAllSays(h, l, look, requests[..n]);
      OneMoreAct(h, l, look, requests, RecordAll(h, l, look, requests[..n]));
    }
  }

  lemma OneMoreAct(h: Digest<ActBody>, l: Ledger, look: nat, requests: seq<Request>, mid: Ledger)
    requires requests != [] && LookTaken(h, l, look, requests[..|requests| - 1], mid)
    ensures LookTaken(h, l, look, requests, RecordOne(h, mid, look, requests[|requests| - 1]))
  {
    hide Asked, SeenKey;
    var n := |requests| - 1;
    var after := RecordOne(h, mid, look, requests[n]);
    AskedIsSeen(mid.acts, requests[n]);
    assert after.acts[..|mid.acts|] == mid.acts;
    forall k | 0 <= k < |requests| ensures NextAct(h, l, look, after.acts, |l.acts| + k, requests[k]) {
      if k < n {
        assert NextAct(h, l, look, mid.acts, |l.acts| + k, requests[..n][k]);
        assert after.acts[..|l.acts| + k] == mid.acts[..|l.acts| + k];
      } else {
        assert after.acts[..|l.acts| + k] == mid.acts;
      }
    }
    assert after.acts[..|l.acts|] == mid.acts[..|l.acts|];
  }

  /** What a look recorded directly leaves, exactly. */
  lemma LookSays(h: Digest<ActBody>, l: Ledger, requests: seq<Request>)
    ensures LookTaken(h, l, if l.acts == [] then 1 else l.acts[|l.acts| - 1].body.lookSequence + 1, requests,
                      RecordAll(h, l, LastLook(l.acts) + 1, requests))
  {
    hide RecordAll, LookTaken;
    RecordAllSays(h, l, LastLook(l.acts) + 1, requests);
  }

  // ---------------------------------------------------------------- one report

  /** The requests of a report: one for each endpoint of the registered family, on the evidence as it is. */
  ghost predicate Asks(s: Study, e: EvidenceDigest, r: Report, requests: seq<Request>) {
    && (if s.family == CostQuality then
          |requests| == 2 && requests[0].endpoint == Cost && requests[1].endpoint == Quality
        else |requests| == 1 && requests[0].endpoint == NetBenefit)
    && forall i :: 0 <= i < |requests| ==>
         && requests[i].sliceId == (if r.slice.Some? then r.slice.value else "slice:registered_population")
         && requests[i].evidenceDigest == e(r.evidence) && requests[i].estimandId == s.estimandId
         && requests[i].includedUnits == r.includedUnits
         && (requests[i].kind == IntervalReport <==> r.evidence.qualified)
         && requests[i].actAlpha * |requests| as real == s.overallAlpha && requests[i].reportedAtMs == r.reportedAtMs
  }

  lemma ReportAsks(s: Study, e: EvidenceDigest, r: Report)
    ensures Asks(s, e, r, Requests(s, e, r))
  {
    var n := |FamilyEndpoints(s.family)| as real;
    assert EndpointAlpha(s) * n == s.overallAlpha;
  }

  ghost predicate NamesSlice(r: Report) { r.slice.Some? ==> !Blank(r.slice.value) }

  lemma DefaultIsNamed()
    ensures !Blank(DEFAULT_SLICE)
  {
    assert DEFAULT_SLICE[0] == 's';
  }

  /** What a report leaves, exactly: nothing for a blank slice, and otherwise one look at its evidence. */
  lemma ReportSays(h: Digest<ActBody>, e: EvidenceDigest, s: Study, l: Ledger, r: Report)
    ensures !NamesSlice(r) ==> Reported(h, e, s, l, r) == l
    ensures NamesSlice(r) ==>
              exists requests :: Asks(s, e, r, requests)
                && LookTaken(h, l, if l.acts == [] then 1 else l.acts[|l.acts| - 1].body.lookSequence + 1, requests,
                             Reported(h, e, s, l, r))
  {
    hide Blank, RecordAll, LookTaken, Asks;
    ReportAsks(s, e, r);
    DefaultIsNamed();
    LookSays(h, l, Requests(s, e, r));
    assert Requests(s, e, r)[0].sliceId == if r.slice.Some? then r.slice.value else DEFAULT_SLICE;
  }

  // ---------------------------------------------------------------- what a look spends

  /** An act that spends error: it reports an interval on a question not asked before. */
  ghost function Spends(): Act -> real {
    (a: Act) => if a.body.request.kind == IntervalReport && a.body.novelty == FirstOfKey then 1.0 else 0.0
  }

  lemma {:induction false} BudgetCountsSpending(acts: seq<Act>)
    ensures |Budgeted(acts)| as real == Total(Spends(), acts)
    decreases |acts|
  {
    if acts != [] {
      BudgetCountsSpending(acts[..|acts| - 1]);
    }
  }

  /** No act on the report's estimand and slice has read this evidence. */
  ghost predicate NewEvidence(e: EvidenceDigest, s: Study, l: Ledger, r: Report) {
    forall i :: 0 <= i < |l.acts| && l.acts[i].body.request.estimandId == s.estimandId
                && l.acts[i].body.request.sliceId
                   == (if r.slice.Some? then r.slice.value else "slice:registered_population")
                ==> l.acts[i].body.request.evidenceDigest != e(r.evidence)
  }

  ghost function EndpointsOf(f: Family): nat { if f == CostQuality then 2 else 1 }

  lemma EndpointsDiffer(s: Study, e: EvidenceDigest, r: Report, requests: seq<Request>, i: nat, j: nat)
    requires Asks(s, e, r, requests) && i < j < |requests|
    ensures !SameQuestion(requests[i], requests[j])
  {
  }

  lemma NotAskedBefore(e: EvidenceDigest, s: Study, l: Ledger, r: Report, requests: seq<Request>, n: nat, k: nat)
    requires NewEvidence(e, s, l, r) && Asks(s, e, r, requests) && n < |requests| && k < |l.acts|
    ensures !SameQuestion(l.acts[k].body.request, requests[n])
  {
  }

  lemma ActAt(h: Digest<ActBody>, l: Ledger, look: nat, requests: seq<Request>, after: Ledger, n: nat)
    requires LookTaken(h, l, look, requests, after) && n < |requests|
    ensures |after.acts| == |l.acts| + |requests| && after.acts[|l.acts| + n].body.request == requests[n]
    ensures after.acts[|l.acts| + n].body.novelty == FirstOfKey <==> !Asked(after.acts[..|l.acts| + n], requests[n])
  {
    hide Asked;
    assert NextAct(h, l, look, after.acts, |l.acts| + n, requests[n]);
  }

  lemma LookSplits(h: Digest<ActBody>, l: Ledger, look: nat, requests: seq<Request>, after: Ledger)
    requires LookTaken(h, l, look, requests, after)
    ensures |after.acts| == |l.acts| + |requests| && after.acts == l.acts + after.acts[|l.acts|..]
  {
    hide NextAct;
  }

  lemma NeverAsked(acts: seq<Act>, n: nat, r: Request)
    requires n <= |acts| && forall k :: 0 <= k < n ==> !SameQuestion(acts[k].body.request, r)
    ensures !Asked(acts[..n], r)
  {
    hide SameQuestion;
  }

  lemma EarlierDiffers(h: Digest<ActBody>, e: EvidenceDigest, s: Study, l: Ledger, r: Report, requests: seq<Request>,
                       look: nat, after: Ledger, n: nat, k: nat)
    requires NewEvidence(e, s, l, r) && Asks(s, e, r, requests) && LookTaken(h, l, look, requests, after)
    requires n < |requests| && k < |l.acts| + n
    ensures |after.acts| == |l.acts| + |requests| && !SameQuestion(after.acts[k].body.request, requests[n])
  {
    hide NewEvidence, Asks, SameQuestion, LookTaken;
    LookSplits(h, l, look, requests, after);
    if k < |l.acts| {
      assert after.acts[k] == l.acts[k];
      NotAskedBefore(e, s, l, r, requests, n, k);
    } else {
      ActAt(h, l, look, requests, after, k - |l.acts|);
      EndpointsDiffer(s, e, r, requests, k - |l.acts|, n);
    }
  }

  lemma NewActsSpend(h: Digest<ActBody>, e: EvidenceDigest, s: Study, l: Ledger, r: Report, requests: seq<Request>,
                     look: nat, after: Ledger, n: nat)
    requires NewEvidence(e, s, l, r) && r.evidence.qualified && Asks(s, e, r, requests)
    requires LookTaken(h, l, look, requests, after) && n < |requests|
    ensures |after.acts| == |l.acts| + |requests| && Spends()(after.acts[|l.acts| + n]) == 1.0
  {
    assert requests[n].kind == IntervalReport;
    hide NewEvidence, Asks, SameQuestion, LookTaken, Asked;
    ActAt(h, l, look, requests, after, n);
    forall k | 0 <= k < |l.acts| + n ensures !SameQuestion(after.acts[k].body.request, requests[n]) {
      EarlierDiffers(h, e, s, l, r, requests, look, after, n, k);
    }
    NeverAsked(after.acts, |l.acts| + n, requests[n]);
  }

  lemma {:induction false} OneEach<T>(f: T -> real, s: seq<T>)
    requires forall i :: 0 <= i < |s| ==> f(s[i]) == 1.0
    ensures Total(f, s) == |s| as real
    decreases |s|
  {
    if s != [] {
      OneEach(f, s[..|s| - 1]);
    }
  }

  /** A report on qualified evidence that is new to its estimand and slice spends one act for each endpoint
      of the family. */
  lemma NewLookSpends(h: Digest<ActBody>, e: EvidenceDigest, s: Study, l: Ledger, r: Report)
    requires NamesSlice(r) && r.evidence.qualified && NewEvidence(e, s, l, r)
    ensures |Budgeted(Reported(h, e, s, l, r).acts)| == |Budgeted(l.acts)| + EndpointsOf(s.family)
  {
    hide Reported, NewEvidence, Spends, Budgeted, LookTaken, NamesSlice, Total, Asks;
    ReportSays(h, e, s, l, r);
    var after := Reported(h, e, s, l, r);
    var look := if l.acts == [] then 1 else l.acts[|l.acts| - 1].body.lookSequence + 1;
    var requests :| Asks(s, e, r, requests) && LookTaken(h, l, look, requests, after);
    LookSplits(h, l, look, requests, after);
    AsManyAsEndpoints(s, e, r, requests);
    var added := after.acts[|l.acts|..];
    forall n | 0 <= n < |added| ensures Spends()(added[n]) == 1.0 {
      NewActsSpend(h, e, s, l, r, requests, look, after, n);
    }
    OneEach(Spends(), added);
    TotalConcat(Spends(), l.acts, added);
    BudgetCountsSpending(after.acts);
    BudgetCountsSpending(l.acts);
  }

  lemma AsManyAsEndpoints(s: Study, e: EvidenceDigest, r: Report, requests: seq<Request>)
    requires Asks(s, e, r, requests)
    ensures |requests| == EndpointsOf(s.family)
  {
  }

  // ---------------------------------------------------------------- when a claim stands

  /** The last act that reported an interval did so at this error. */
  ghost predicate LastRate(acts: seq<Act>, alpha: real) {
    exists i :: 0 <= i < |acts| && acts[i].body.request.kind == IntervalReport && acts[i].body.request.actAlpha == alpha
                && forall j :: i < j < |acts| ==> acts[j].body.request.kind != IntervalReport
  }

  lemma {:induction false} LatestIsLast(acts: seq<Act>)
    ensures forall alpha :: LastRate(acts, alpha) <==> LatestAlpha(acts) == Some(alpha)
    decreases |acts|
  {
    if acts != [] {
      var n := |acts| - 1;
      LatestIsLast(acts[..n]);
      forall alpha ensures LastRate(acts, alpha) <==> LatestAlpha(acts) == Some(alpha) {
        if LastRate(acts, alpha) {
          var i :| 0 <= i < |acts| && acts[i].body.request.kind == IntervalReport
                   && acts[i].body.request.actAlpha == alpha
                   && forall j :: i < j < |acts| ==> acts[j].body.request.kind != IntervalReport;
          if i < n {
            assert acts[..n][i] == acts[i];
            assert LastRate(acts[..n], alpha);
          }
        }
        if acts[n].body.request.kind != IntervalReport && LastRate(acts[..n], alpha) {
          var i :| 0 <= i < n && acts[..n][i].body.request.kind == IntervalReport
                   && acts[..n][i].body.request.actAlpha == alpha
                   && forall j :: i < j < n ==> acts[..n][j].body.request.kind != IntervalReport;
          assert acts[i] == acts[..n][i];
          assert forall j :: i < j < n ==> acts[j] == acts[..n][j];
        }
      }
    }
  }

  /** The plan bounds everything recorded, and the last interval was reported at a rate it pays for. */
  ghost predicate Bounds(p: Plan, acts: seq<Act>) {
    var planned := p.maxLooks * p.endpointsPerLook * |p.sliceIds|;
    && planned > 0 && Total(Spends(), acts) <= planned as real
    && (acts != [] ==> acts[|acts| - 1].body.lookSequence <= p.maxLooks)
    && (forall i :: 0 <= i < |acts| ==> acts[i].body.request.sliceId in p.sliceIds)
    && exists alpha :: LastRate(acts, alpha) && alpha <= p.target / planned as real * 1.000000001
  }

  lemma CoverageSays(l: Ledger)
    ensures CoveredByPlan(l) <==> l.plan.Some? && Bounds(l.plan.value, l.acts)
  {
    hide Budgeted, LatestAlpha, LastRate, Spends, Total;
    BudgetCountsSpending(l.acts);
    LatestIsLast(l.acts);
    if LatestAlpha(l.acts).Some? {
      assert LastRate(l.acts, LatestAlpha(l.acts).value);
    }
  }

  /** Exactly when a supported claim survives the looks: the chain verifies, and the plan bounds what was
      recorded, or no more acts spent error than one look of the family has endpoints. */
  lemma StandsExactly(h: Digest<ActBody>, s: Study, l: Ledger)
    ensures Stands(h, s, l)
       <==> ChainIntact(h, l) && ((l.plan.Some? && Bounds(l.plan.value, l.acts))
                                  || Total(Spends(), l.acts) <= EndpointsOf(s.family) as real)
  {
    hide Budgeted, ChainIntact, CoveredByPlan, Bounds, Spends, Total;
    BudgetCountsSpending(l.acts);
    CoverageSays(l);
  }

  /** Without a plan that covers it, a second look at new qualified evidence withholds the claim: the two
      looks have spent twice what the joint rule pays for. */
  lemma SecondLookIsWithheld(h: Digest<ActBody>, e: EvidenceDigest, s: Study, l: Ledger, first: Report, second: Report)
    requires NamesSlice(first) && first.evidence.qualified && NewEvidence(e, s, l, first)
    requires NamesSlice(second) && second.evidence.qualified
    requires NewEvidence(e, s, Reported(h, e, s, l, first), second)
    requires !CoveredByPlan(Reported(h, e, s, Reported(h, e, s, l, first), second))
    ensures !Stands(h, s, Reported(h, e, s, Reported(h, e, s, l, first), second))
  {
    hide Budgeted, ChainIntact, CoveredByPlan, Reported, NewEvidence, FamilyEndpoints;
    NewLookSpends(h, e, s, l, first);
    NewLookSpends(h, e, s, Reported(h, e, s, l, first), second);
    FamilySize(s.family);
  }

  lemma FamilySize(f: Family)
    ensures |FamilyEndpoints(f)| == EndpointsOf(f)
  {
  }
}
