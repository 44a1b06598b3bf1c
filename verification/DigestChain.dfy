/** Append-only histories, chained by digests. */
module DigestChain {
  // Nothing is assumed about the digest function: the results say that either the histories agree or two
  // different records with one digest have been exhibited.

  import opened Money

  datatype Link<M> = Link(sequence: nat, body: M, previous: Option<string>, digest: string)

  /** The digest of everything in a record but the digest itself. */
  type Digest<!M> = (nat, M, Option<string>) -> string

  function Head<M>(start: Option<string>, history: seq<Link<M>>): Option<string> {
    if history == [] then start else Some(history[|history| - 1].digest)
  }

  predicate LinkOk<M>(h: Digest<M>, index: nat, previous: Option<string>, link: Link<M>) {
    && link.sequence == index + 1
    && link.previous == previous
    && link.digest == h(link.sequence, link.body, link.previous)
  }

  ghost predicate Verified<M>(h: Digest<M>, start: Option<string>, history: seq<Link<M>>) {
    forall i: nat | i < |history| :: LinkOk(h, i, Head(start, history[..i]), history[i])
  }

  /** Walks the chain and reports the sequence number of the first bad record. */
  method Verify<M>(h: Digest<M>, start: Option<string>, history: seq<Link<M>>)
    returns (valid: bool, firstInvalid: Option<nat>)
    ensures valid <==> Verified(h, start, history)
    ensures valid <==> firstInvalid == None
    ensures !valid ==> 0 < firstInvalid.value <= |history|
    ensures !valid ==> Verified(h, start, history[..firstInvalid.value - 1])
    ensures !valid ==> !Verified(h, start, history[..firstInvalid.value])
  {
    var previous := start;
    var index := 0;
    while index < |history|
      invariant index <= |history|
      invariant previous == Head(start, history[..index])
      invariant Verified(h, start, history[..index])
    {
      hide *;
      assert history[..index + 1][..index] == history[..index];
      if history[index].sequence != index + 1 || history[index].previous != previous
         || history[index].digest != h(history[index].sequence, history[index].body, history[index].previous) {
        PrefixVerified(h, start, history, index, index + 1);
        return false, Some(index + 1);
      }
      ExtendVerified(h, start, history[..index], history[index]);
      assert history[..index + 1] == history[..index] + [history[index]];
      previous := Some(history[index].digest);
      index := index + 1;
    }
    assert history[..index] == history;
    return true, None;
  }

  lemma PrefixVerified<M>(h: Digest<M>, start: Option<string>, history: seq<Link<M>>, bad: nat, end: nat)
    requires bad < end <= |history|
    requires !LinkOk(h, bad, Head(start, history[..bad]), history[bad])
    ensures !Verified(h, start, history[..end]) && !Verified(h, start, history)
  {
    assert history[..end][..bad] == history[..bad];
  }

  lemma ExtendVerified<M>(h: Digest<M>, start: Option<string>, history: seq<Link<M>>, link: Link<M>)
    requires Verified(h, start, history)
    requires LinkOk(h, |history|, Head(start, history), link)
    ensures Verified(h, start, history + [link])
  {
    var longer := history + [link];
    forall i: nat | i < |longer| ensures LinkOk(h, i, Head(start, longer[..i]), longer[i]) {
      assert longer[..i] == history[..i];
      assert i == |history| ==> history[..i] == history;
    }
  }

  function NewLink<M>(h: Digest<M>, start: Option<string>, history: seq<Link<M>>, body: M): Link<M> {
    var previous := Head(start, history);
    Link(|history| + 1, body, previous, h(|history| + 1, body, previous))
  }

  /** Appending to a verified history yields a verified one. */
  lemma AppendKeepsVerified<M>(h: Digest<M>, start: Option<string>, history: seq<Link<M>>, body: M)
    requires Verified(h, start, history)
    ensures Verified(h, start, history + [NewLink(h, start, history, body)])
  {
    ExtendVerified(h, start, history, NewLink(h, start, history, body));
  }

  predicate Collide<M(==)>(h: Digest<M>, a: Link<M>, b: Link<M>) {
    && (a.sequence, a.body, a.previous) != (b.sequence, b.body, b.previous)
    && h(a.sequence, a.body, a.previous) == h(b.sequence, b.body, b.previous)
  }

  /** Tamper evidence: two verified histories with one head digest, both empty or both not,
      are equal element by element and grew from one start, or a collision is exhibited. */
  lemma {:induction false} SameHeadSameHistory<M>(
    h: Digest<M>, startA: Option<string>, a: seq<Link<M>>, startB: Option<string>, b: seq<Link<M>>)
    returns (collision: Option<(Link<M>, Link<M>)>)
    requires Verified(h, startA, a) && Verified(h, startB, b)
    requires a == [] <==> b == []
    requires Head(startA, a) == Head(startB, b)
    ensures collision == None ==> a == b && startA == startB
    ensures collision.Some? ==> collision.value.0 in a && collision.value.1 in b
    ensures collision.Some? ==> Collide(h, collision.value.0, collision.value.1)
    decreases |a|
  {
    hide Verified;
    if a == [] {
      return None;
    }
    var i, j := |a| - 1, |b| - 1;
    LastVerified(h, startA, a);
    LastVerified(h, startB, b);
    if Collide(h, a[i], b[j]) {
      return Some((a[i], b[j]));
    }
    collision := SameHeadSameHistory(h, startA, a[..i], startB, b[..j]);
    assert a == a[..i] + [a[i]] && b == b[..j] + [b[j]];
  }

  lemma LastVerified<M>(h: Digest<M>, start: Option<string>, history: seq<Link<M>>)
    requires Verified(h, start, history) && history != []
    ensures var init, last := history[..|history| - 1], history[|history| - 1];
            Verified(h, start, init) && LinkOk(h, |init|, Head(start, init), last)
  {
    var init := history[..|history| - 1];
    forall i: nat | i < |init| ensures LinkOk(h, i, Head(start, init[..i]), init[i]) {
      assert init[..i] == history[..i];
    }
  }
}
