/** The account of every look at a study. */
module InferenceLedger {
  // An act chain, and the error budget the acts spend. Error rates are real numbers.

  import opened Money
  import opened DigestChain
  import opened Text

  datatype Endpoint = Cost | Quality | NetBenefit
  datatype Family = CostQuality | NetBenefitFamily
  datatype Kind = IntervalReport | NonEstimatingRead
  datatype Novelty = FirstOfKey | IdenticalRepeat

  datatype Request = Request(
    endpoint: Endpoint, sliceId: string, evidenceDigest: string, estimandId: Option<string>,
    includedUnits: nat, kind: Kind, actAlpha: real, reportedAtMs: int)

  datatype ActBody = ActBody(
    lookSequence: nat, studyId: string, protocolHash: string, request: Request, novelty: Novelty)

  type Act = Link<ActBody>

  datatype Plan = Plan(
    declaredAtMs: int, maxLooks: nat, endpointsPerLook: nat, sliceIds: seq<string>, target: real)

  datatype Ledger = Ledger(
    studyId: string, protocolHash: string, plan: Option<Plan>, acts: seq<Act>,
    genesisDigest: string, ledgerDigest: string)

  datatype Key = Key(estimandId: Option<string>, endpoint: Endpoint, sliceId: string, evidenceDigest: string)

  function KeyOf(r: Request): Key { Key(r.estimandId, r.endpoint, r.sliceId, r.evidenceDigest) }

  function ActKey(a: Act): Key { KeyOf(a.body.request) }

  // ---------------------------------------------------------------- recording

  predicate SlicesNamed(requests: seq<Request>) {
    forall i :: 0 <= i < |requests| ==> !Blank(requests[i].sliceId)
  }

  predicate SeenKey(acts: seq<Act>, k: Key) {
    exists i :: 0 <= i < |acts| && ActKey(acts[i]) == k
  }

  function LastLook(acts: seq<Act>): nat {
    if acts == [] then 0 else acts[|acts| - 1].body.lookSequence
  }

  /** One act: its place, its predecessor and whether it is new all come from the ledger. */
  function RecordOne(h: Digest<ActBody>, l: Ledger, look: nat, r: Request): Ledger {
    var novelty := if SeenKey(l.acts, KeyOf(r)) then IdenticalRepeat else FirstOfKey;
    var body := ActBody(look, l.studyId, l.protocolHash, r, novelty);
    var digest := h(|l.acts| + 1, body, Some(l.ledgerDigest));
    l.(acts := l.acts + [Link(|l.acts| + 1, body, Some(l.ledgerDigest), digest)], ledgerDigest := digest)
  }

  function RecordAll(h: Digest<ActBody>, l: Ledger, look: nat, requests: seq<Request>): Ledger
    decreases |requests|
  {
    if requests == [] then l
    else RecordOne(h, RecordAll(h, l, look, requests[..|requests| - 1]), look, requests[|requests| - 1])
  }

  method CheckSlices(requests: seq<Request>) returns (ok: bool)
    ensures ok <==> SlicesNamed(requests)
  {
    for n := 0 to |requests|
      invariant SlicesNamed(requests[..n])
    {
      if Blank(requests[n].sliceId) {
        return false;
      }
    }
    return true;
  }

  ghost predicate SeenExactly(seenKeys: set<Key>, acts: seq<Act>) {
    forall k :: k in seenKeys <==> SeenKey(acts, k)
  }

  /** The acts of one look, recorded by the loop that carries sequence, digest and seen keys. */
  method RecordInferentialActs(h: Digest<ActBody>, l: Ledger, requests: seq<Request>)
    returns (r: Option<Ledger>)
    ensures r == if SlicesNamed(requests) then Some(RecordAll(h, l, LastLook(l.acts) + 1, requests)) else None
  {
    var named := CheckSlices(requests);
    if !named {
      return None;
    }
    hide *;
    var seenKeys := set i | 0 <= i < |l.acts| :: ActKey(l.acts[i]);
    var look := LastLook(l.acts) + 1;
    var recorded: seq<Act> := [];
    var previous, sequence := l.ledgerDigest, |l.acts|;
    NothingRecorded(h, l, look, requests, seenKeys);
    for n := 0 to |requests|
      invariant sequence == |l.acts| + |recorded|
      invariant Writing(h, l, look, requests, n, seenKeys, recorded, previous)
    {
      sequence := sequence + 1;
      var novelty := if KeyOf(requests[n]) in seenKeys then IdenticalRepeat else FirstOfKey;
      var body := ActBody(look, l.studyId, l.protocolHash, requests[n], novelty);
      var act := Link(sequence, body, Some(previous), h(sequence, body, Some(previous)));
      OneWritten(h, l, look, requests, n, seenKeys, recorded, previous);
      seenKeys := seenKeys + {KeyOf(requests[n])};
      recorded := recorded + [act];
      previous := act.digest;
    }
    AllWritten(h, l, look, requests, seenKeys, recorded, previous);
    return Some(l.(acts := l.acts + recorded, ledgerDigest := previous));
  }

  /** The recording loop, n requests in. */
  ghost predicate Writing(h: Digest<ActBody>, l: Ledger, look: nat, requests: seq<Request>, n: nat,
                          seenKeys: set<Key>, recorded: seq<Act>, previous: string)
    requires n <= |requests|
  {
    var made := RecordAll(h, l, look, requests[..n]);
    SeenExactly(seenKeys, made.acts) && made == l.(acts := l.acts + recorded, ledgerDigest := previous)
  }

  lemma NothingRecorded(h: Digest<ActBody>, l: Ledger, look: nat, requests: seq<Request>, seenKeys: set<Key>)
    requires seenKeys == set i | 0 <= i < |l.acts| :: ActKey(l.acts[i])
    ensures Writing(h, l, look, requests, 0, seenKeys, [], l.ledgerDigest)
  {
    assert requests[..0] == [] && l.acts + [] == l.acts;
  }

  lemma OneWritten(h: Digest<ActBody>, l: Ledger, look: nat, requests: seq<Request>, n: nat,
                   seenKeys: set<Key>, recorded: seq<Act>, previous: string)
    requires n < |requests| && Writing(h, l, look, requests, n, seenKeys, recorded, previous)
    ensures var sequence := |l.acts| + |recorded| + 1;
            var novelty := if KeyOf(requests[n]) in seenKeys then IdenticalRepeat else FirstOfKey;
            var body := ActBody(look, l.studyId, l.protocolHash, requests[n], novelty);
            var act := Link(sequence, body, Some(previous), h(sequence, body, Some(previous)));
            Writing(h, l, look, requests, n + 1, seenKeys + {KeyOf(requests[n])}, recorded + [act], act.digest)
  {
    hide RecordAll, SeenKey, SeenExactly, KeyOf;
    var made := RecordAll(h, l, look, requests[..n]);
    RecordStep(h, l, look, requests, n, made, seenKeys);
    var sequence := |made.acts| + 1;
    var novelty := if KeyOf(requests[n]) in seenKeys then IdenticalRepeat else FirstOfKey;
    var body := ActBody(look, l.studyId, l.protocolHash, requests[n], novelty);
    var act := Link(sequence, body, Some(previous), h(sequence, body, Some(previous)));
    assert l.acts + recorded + [act] == l.acts + (recorded + [act]);
  }

  lemma AllWritten(h: Digest<ActBody>, l: Ledger, look: nat, requests: seq<Request>, seenKeys: set<Key>,
                   recorded: seq<Act>, previous: string)
    requires Writing(h, l, look, requests, |requests|, seenKeys, recorded, previous)
    ensures RecordAll(h, l, look, requests) == l.(acts := l.acts + recorded, ledgerDigest := previous)
  {
    assert requests[..|requests|] == requests;
  }

  lemma RecordStep(h: Digest<ActBody>, l: Ledger, look: nat, requests: seq<Request>, n: nat, made: Ledger,
                   seenKeys: set<Key>)
    requires n < |requests| && made == RecordAll(h, l, look, requests[..n]) && SeenExactly(seenKeys, made.acts)
    ensures RecordOne(h, made, look, requests[n]) == RecordAll(h, l, look, requests[..n + 1])
    ensures KeyOf(requests[n]) in seenKeys <==> SeenKey(made.acts, KeyOf(requests[n]))
    ensures SeenExactly(seenKeys + {KeyOf(requests[n])}, RecordOne(h, made, look, requests[n]).acts)
  {
    assert requests[..n + 1][..n] == requests[..n] && requests[..n + 1][n] == requests[n];
    SeenAfterAppend(made.acts, RecordOne(h, made, look, requests[n]).acts[|made.acts|]);
  }

  lemma SeenAfterAppend(acts: seq<Act>, a: Act)
    ensures forall k :: SeenKey(acts + [a], k) <==> SeenKey(acts, k) || k == ActKey(a)
  {
    forall k ensures SeenKey(acts + [a], k) <==> SeenKey(acts, k) || k == ActKey(a) {
      if SeenKey(acts, k) {
        var i :| 0 <= i < |acts| && ActKey(acts[i]) == k;
        assert ActKey((acts + [a])[i]) == k;
      }
      assert (acts + [a])[|acts|] == a;
    }
  }

  // ---------------------------------------------------------------- the chain

  ghost predicate ChainIntact(h: Digest<ActBody>, l: Ledger) {
    && Verified(h, Some(l.genesisDigest), l.acts)
    && Some(l.ledgerDigest) == Head(Some(l.genesisDigest), l.acts)
  }

  method VerifyActChain(h: Digest<ActBody>, l: Ledger) returns (intact: bool)
    ensures intact <==> ChainIntact(h, l)
  {
    var valid, _ := Verify(h, Some(l.genesisDigest), l.acts);
    intact := valid && Some(l.ledgerDigest) == Head(Some(l.genesisDigest), l.acts);
  }

  function OpenLedger(genesis: (string, string, Option<Plan>) -> string, studyId: string, protocolHash: string,
                      plan: Option<Plan>): Ledger {
    var g := genesis(studyId, protocolHash, plan);
    Ledger(studyId, protocolHash, plan, [], g, g)
  }

  /** Two intact ledgers with one digest hold the same acts and grew from one genesis digest,
      provided both are empty or neither is; otherwise a collision has been exhibited. */
  lemma SameDigestSameActs(h: Digest<ActBody>, a: Ledger, b: Ledger) returns (collision: Option<(Act, Act)>)
    requires ChainIntact(h, a) && ChainIntact(h, b) && a.ledgerDigest == b.ledgerDigest
    requires a.acts == [] <==> b.acts == []
    ensures collision == None ==> a.acts == b.acts && a.genesisDigest == b.genesisDigest
    ensures collision.Some? ==> Collide(h, collision.value.0, collision.value.1)
  {
    collision := SameHeadSameHistory(h, Some(a.genesisDigest), a.acts, Some(b.genesisDigest), b.acts);
  }

  /** The proviso is needed, because verification never recomputes the genesis digest: emptying a
      ledger and calling its head the genesis verifies with the same digest. Nor is the plan part
      of what is verified: any plan at all can be put in its place. */
  lemma GenesisIsNotVerified(h: Digest<ActBody>, l: Ledger, plan: Option<Plan>)
    requires ChainIntact(h, l)
    ensures ChainIntact(h, l.(acts := [], genesisDigest := l.ledgerDigest))
    ensures ChainIntact(h, l.(plan := plan))
  {
  }

  lemma RecordOneKeepsChain(h: Digest<ActBody>, l: Ledger, look: nat, r: Request)
    requires ChainIntact(h, l)
    ensures ChainIntact(h, RecordOne(h, l, look, r))
  {
    var next := RecordOne(h, l, look, r);
    ExtendVerified(h, Some(l.genesisDigest), l.acts, next.acts[|l.acts|]);
  }

  // ---------------------------------------------------------------- the error budget

  predicate EntersErrorBudget(a: Act) {
    a.body.request.kind == IntervalReport && a.body.novelty == FirstOfKey
  }

  function Budgeted(acts: seq<Act>): seq<Act> {
    if acts == [] then []
    else
      var rest := Budgeted(acts[..|acts| - 1]);
      if EntersErrorBudget(acts[|acts| - 1]) then rest + [acts[|acts| - 1]] else rest
  }

  ghost function Keys(acts: seq<Act>): set<Key> {
    set i | 0 <= i < |acts| :: ActKey(acts[i])
  }

  ghost function IntervalKeys(acts: seq<Act>): set<Key> {
    set i | 0 <= i < |acts| && acts[i].body.request.kind == IntervalReport :: ActKey(acts[i])
  }

  /** Keys whose very first act reported an interval. */
  ghost function FirstIntervalKeys(acts: seq<Act>): set<Key> {
    set i | 0 <= i < |acts| && acts[i].body.request.kind == IntervalReport && !SeenKey(acts[..i], ActKey(acts[i]))
      :: ActKey(acts[i])
  }

  /** An act is new exactly when no earlier act has its key. */
  ghost predicate NoveltyOk(acts: seq<Act>) {
    forall i :: 0 <= i < |acts| ==> (acts[i].body.novelty == FirstOfKey <==> !SeenKey(acts[..i], ActKey(acts[i])))
  }

  /** The budget counts each key once, by its first act. */
  lemma {:induction false} BudgetCountsFirstIntervals(acts: seq<Act>)
    requires NoveltyOk(acts)
    ensures |Budgeted(acts)| == |FirstIntervalKeys(acts)|
    ensures FirstIntervalKeys(acts) <= IntervalKeys(acts)
    decreases |acts|
  {
    if acts != [] {
      var init, last := acts[..|acts| - 1], acts[|acts| - 1];
      assert acts == init + [last];
      assert forall i :: 0 <= i < |acts| ==> init[..i] == acts[..i];
      BudgetCountsFirstIntervals(init);
      FirstIntervalAdded(init, last);
    }
  }

  lemma FirstIntervalAdded(init: seq<Act>, a: Act)
    ensures var isNew := a.body.request.kind == IntervalReport && !SeenKey(init, ActKey(a));
            && FirstIntervalKeys(init + [a]) == FirstIntervalKeys(init) + (if isNew then {ActKey(a)} else {})
            && (isNew ==> ActKey(a) !in FirstIntervalKeys(init))
  {
    var acts := init + [a];
    assert acts[..|init|] == init;
    assert forall i :: 0 <= i < |init| ==> init[..i] == acts[..i];
    assert acts[|init|] == a;
    forall k ensures k in FirstIntervalKeys(init) ==> k in FirstIntervalKeys(acts) {
      if k in FirstIntervalKeys(init) {
        var i :| 0 <= i < |init| && init[i].body.request.kind == IntervalReport
                 && !SeenKey(init[..i], ActKey(init[i])) && k == ActKey(init[i]);
        assert acts[i] == init[i];
      }
    }
  }

  /** No key was first read without an interval and reported with one afterwards. */
  ghost predicate ReportedFromTheFirst(acts: seq<Act>) {
    forall i :: 0 <= i < |acts| && acts[i].body.request.kind == IntervalReport ==>
        ActKey(acts[i]) in FirstIntervalKeys(acts)
  }

  /** Acts in the budget are the distinct interval-reporting keys if and only if no interval was
      reported on a key that had already been read without one. */
  lemma BudgetIsDistinctKeys(acts: seq<Act>)
    requires NoveltyOk(acts)
    ensures |Budgeted(acts)| == |IntervalKeys(acts)| <==> ReportedFromTheFirst(acts)
  {
    BudgetCountsFirstIntervals(acts);
    var first, all := FirstIntervalKeys(acts), IntervalKeys(acts);
    if ReportedFromTheFirst(acts) {
      assert first == all;
    } else {
      var i :| 0 <= i < |acts| && acts[i].body.request.kind == IntervalReport && ActKey(acts[i]) !in first;
      assert ActKey(acts[i]) in all - first;
      assert |all| == |first| + |all - first| by { assert all == first + (all - first); }
    }
  }

}
