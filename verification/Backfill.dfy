/**
 Filling in the ancestors of a head (`Backfill` and `backfill` in common/headtracker/head_tracker.go) against
 the saver's heads by hash. Fetching and saving may fail, and the context may be cancelled, at any time;
 what the client does return is the block that was asked for.
 */
module Backfill {
  import opened Options
  import opened Chain

  datatype Block = Block(number: int, hash: Hash, parentHash: Hash)

  /** What comes of a request: the client answers, the saver stores it, and the context is cancelled meanwhile. */
  datatype Moment = Moment(answered: bool, stored: bool, cancelled: bool)

  predicate Got(moment: Moment) {
    moment.answered && moment.stored
  }

  predicate WentWell(moment: Moment) {
    Got(moment) && !moment.cancelled
  }

  /** The blocks of the chain by hash, as an honest client knows them. */
  type World = map<Hash, Block>

  ghost predicate Honest(world: World) {
    forall h :: h in world ==>
      && world[h].hash == h && world[h].number >= 0
      && (world[h].number > 0 ==>
           world[h].parentHash in world && world[world[h].parentHash].number == world[h].number - 1)
  }

  ghost predicate Known(world: World, block: Block) {
    block.hash in world && world[block.hash] == block
  }

  ghost function Ancestor(world: World, block: Block, k: nat): (ancestor: Block)
    requires Honest(world) && Known(world, block) && k <= block.number
    ensures Known(world, ancestor) && ancestor.number == block.number - k
    decreases k
  {
    if k == 0 then block else Ancestor(world, world[block.parentHash], k - 1)
  }

  /** The ancestors from the parent down to the base height that the saver does not hold, highest first. */
  ghost function Missing(world: World, saved: set<Hash>, block: Block, base: nat): (missing: seq<Hash>)
    requires Honest(world) && Known(world, block)
    ensures forall i :: 0 <= i < |missing| ==>
              missing[i] in world && missing[i] !in saved && base <= world[missing[i]].number < block.number
    decreases block.number
  {
    if block.number <= base then []
    else
      (if block.parentHash in saved then [] else [block.parentHash])
      + Missing(world, saved, world[block.parentHash], base)
  }

  function Elements(s: seq<Hash>): set<Hash> {
    set h | h in s
  }

  /** The first `asked` of the missing were asked for and the first `kept` saved. */
  ghost predicate IsStretch(missing: seq<Hash>, asked: nat, kept: nat, before: set<Hash>, saved: set<Hash>,
                            fetchedBefore: seq<Hash>, fetched: seq<Hash>)
  {
    && kept <= asked <= |missing|
    && fetched == fetchedBefore + missing[..asked]
    && saved == before + Elements(missing[..kept])
  }

  /** Where the loop stands: at `head`, with what lies below it still to be looked at. */
  ghost predicate Walking(world: World, missing: seq<Hash>, asked: nat, before: set<Hash>, saved: set<Hash>,
                          fetchedBefore: seq<Hash>, fetched: seq<Hash>, head: Block, base: nat)
  {
    && Honest(world) && Known(world, head)
    && IsStretch(missing, asked, asked, before, saved, fetchedBefore, fetched)
    && missing[asked..] == Missing(world, before, head, base)
    && (forall k :: 0 <= k < asked ==> missing[k] in world && world[missing[k]].number >= head.number)
  }

  /** What was saved on the way lies above, so a parent that is found was there before. */
  lemma WalkFinds(world: World, missing: seq<Hash>, asked: nat, before: set<Hash>, saved: set<Hash>,
                  fetchedBefore: seq<Hash>, fetched: seq<Hash>, head: Block, base: nat)
    requires Walking(world, missing, asked, before, saved, fetchedBefore, fetched, head, base)
    requires head.number > base && head.parentHash in saved
    ensures Walking(world, missing, asked, before, saved, fetchedBefore, fetched, world[head.parentHash], base)
  {
    assert world[head.parentHash].number < head.number;
    assert head.parentHash in before;
  }

  lemma WalkEnds(world: World, missing: seq<Hash>, asked: nat, before: set<Hash>, saved: set<Hash>,
                 fetchedBefore: seq<Hash>, fetched: seq<Hash>, head: Block, base: nat)
    requires Walking(world, missing, asked, before, saved, fetchedBefore, fetched, head, base) && head.number <= base
    ensures IsStretch(missing, asked, asked, before, saved, fetchedBefore, fetched) && asked == |missing|
  {
  }

  lemma WalkFetches(world: World, missing: seq<Hash>, asked: nat, before: set<Hash>, saved: set<Hash>,
                    fetchedBefore: seq<Hash>, fetched: seq<Hash>, head: Block, base: nat)
    requires Walking(world, missing, asked, before, saved, fetchedBefore, fetched, head, base)
    requires head.number > base && head.parentHash !in saved
    ensures IsStretch(missing, asked + 1, asked, before, saved, fetchedBefore, fetched + [head.parentHash])
    ensures Walking(world, missing, asked + 1, before, saved + {head.parentHash}, fetchedBefore,
        fetched + [head.parentHash],
                    world[head.parentHash], base)
  {
    var h := head.parentHash;
    assert missing[asked..][0] == h;
    assert missing[..asked + 1] == missing[..asked] + [h];
    assert fetched + [h] == fetchedBefore + missing[..asked + 1];
    assert Elements(missing[..asked + 1]) == Elements(missing[..asked]) + {h};
    assert missing[asked + 1..] == missing[asked..][1..];
    assert missing[asked..][1..] == Missing(world, before, world[h], base);
  }

  class HeadTracker {
    const client: World
    const moments: nat -> Moment  // what comes of each request, by its number
    var saved: map<Hash, Block>
    var requests: nat
    var ctxDone: bool
    ghost var fetched: seq<Hash>

    ghost predicate Valid()
      reads this
    {
      Honest(client) && forall h :: h in saved ==> h in client && saved[h] == client[h]
    }

    constructor (client: World, moments: nat -> Moment)
      requires Honest(client)
      ensures Valid() && this.client == client && this.moments == moments
      ensures saved == map[] && fetched == [] && requests == 0 && !ctxDone
    {
      this.client, this.moments := client, moments;
      saved, fetched, requests, ctxDone := map[], [], 0, false;
    }

    method FetchAndSaveHead(hash: Hash) returns (head: Option<Block>)
      requires Valid() && hash in client
      modifies this
      ensures Valid()
      ensures fetched == old(fetched) + [hash] && requests == old(requests) + 1
      ensures head.Some? <==> Got(moments(old(requests)))
      ensures ctxDone == (old(ctxDone) || moments(old(requests)).cancelled)
      ensures head.Some? ==> head.value == client[hash] && saved == old(saved)[hash := client[hash]]
      ensures head.Some? ==> saved.Keys == old(saved.Keys) + {hash}
      ensures head.None? ==> saved == old(saved)
    {
      var moment := moments(requests);
      fetched, requests := fetched + [hash], requests + 1;
      ctxDone := ctxDone || moment.cancelled;
      if !moment.answered {
        return None;
      }
      if !moment.stored {
        return None;
      }
      saved := saved[hash := client[hash]];
      head := Some(client[hash]);
    }

    /**
     The requests since then: all but the last went well, and they stop short of `total` only when the last one did not,
     or the context was done before. An error is the failure of the last one.
     */
    ghost predicate Asked(asked: nat, total: nat, since: nat, doneBefore: bool, failed: bool)
      reads this
    {
      && requests == since + asked
      && (forall tick :: since <= tick < since + asked - 1 ==> WentWell(moments(tick)))
      && (asked > 1 ==> !doneBefore)
      && (asked < total ==> asked > 0 && (ctxDone || !Got(moments(since + asked - 1))))
      && (failed <==> asked > 0 && !Got(moments(since + asked - 1)))
      && (ctxDone <==> doneBefore || (asked > 0 && moments(since + asked - 1).cancelled))
    }

    ghost predicate WellSoFar(asked: nat, since: nat, doneBefore: bool)
      reads this
    {
      && requests == since + asked && ctxDone == doneBefore && (asked > 0 ==> !doneBefore)
      && forall tick :: since <= tick < since + asked ==> WentWell(moments(tick))
    }

    lemma StopsHere(asked: nat, total: nat, since: nat, doneBefore: bool, failed: bool)
      requires requests == since + asked + 1 && (asked > 0 ==> !doneBefore)
      requires forall tick :: since <= tick < since + asked ==> WentWell(moments(tick))
      requires ctxDone == (doneBefore || moments(since + asked).cancelled) && failed == !Got(moments(since + asked))
      requires failed || ctxDone
      ensures Asked(asked + 1, total, since, doneBefore, failed)
    {
    }

    method FetchParent(head: Block, ghost base: nat, ghost missing: seq<Hash>, ghost asked: nat,
        ghost before: set<Hash>, ghost fetchedBefore: seq<Hash>)
      returns (parent: Option<Block>)
      requires Valid() && head.number > base && head.parentHash !in saved
      requires Walking(client, missing, asked, before, saved.Keys, fetchedBefore, fetched, head, base)
      modifies this
      ensures Valid() && requests == old(requests) + 1
      ensures parent.Some? <==> Got(moments(old(requests)))
      ensures ctxDone == (old(ctxDone) || moments(old(requests)).cancelled)
      ensures parent.Some? ==>
                && Known(client, head) && head.number > 0 && parent.value == client[head.parentHash]
                && Walking(client, missing, asked + 1, before, saved.Keys, fetchedBefore, fetched, parent.value, base)
      ensures parent.None? ==> IsStretch(missing, asked + 1, asked, before, saved.Keys, fetchedBefore, fetched)
    {
      WalkFetches(client, missing, asked, before, saved.Keys, fetchedBefore, fetched, head, base);
      parent := FetchAndSaveHead(head.parentHash);
    }

    /**
     Asks for the missing ancestors one after the other, highest first and each once, and stops at the first
     failure: `kept` of them are then saved, a stretch from the top without the one that failed.
     */
    method BackfillFrom(start: Block, base: nat) returns (failed: bool, ghost asked: nat, ghost kept: nat)
      requires Valid() && Known(client, start)
      modifies this
      ensures Valid()
      ensures IsStretch(Missing(client, old(saved.Keys), start, base), asked, kept, old(saved.Keys), saved.Keys,
          old(fetched), fetched)
      ensures if failed then asked == kept + 1 else asked == kept
      ensures Asked(asked, |Missing(client, old(saved.Keys), start, base)|, old(requests), old(ctxDone), failed)
    {
      asked, kept, failed := 0, 0, false;
      ghost var missing := Missing(client, saved.Keys, start, base);
      ghost var before := saved.Keys;
      if start.number <= base {
        return;
      }
      var head := start;
      for i := start.number downto base
        invariant i == head.number && kept == asked
        invariant Valid() && WellSoFar(asked, old(requests), old(ctxDone))
        invariant Walking(client, missing, asked, before, saved.Keys, old(fetched), fetched, head, base)
      {
        if head.parentHash in saved {
          head := SavedParent(head, base, missing, asked, before, old(fetched));
          continue;
        }
        var stop, parent;
        stop, parent := FetchNext(head, base, missing, asked, before, old(fetched), old(requests), old(ctxDone));
        asked := asked + 1;
        kept := if parent.Some? then asked else asked - 1;
        if stop {
          return parent.None?, asked, kept;
        }
        head := parent.value;
      }
      WalkEnds(client, missing, asked, before, saved.Keys, old(fetched), fetched, head, base);
      EndReached(asked, old(requests), old(ctxDone));
    }

    lemma EndReached(asked: nat, since: nat, doneBefore: bool)
      requires WellSoFar(asked, since, doneBefore)
      ensures Asked(asked, asked, since, doneBefore, false)
    {
    }

    /** What was saved before needs no request. */
    method SavedParent(head: Block, ghost base: nat, ghost missing: seq<Hash>, ghost asked: nat,
        ghost before: set<Hash>, ghost fetchedBefore: seq<Hash>)
      returns (parent: Block)
      requires Valid() && head.number > base && head.parentHash in saved
      requires Walking(client, missing, asked, before, saved.Keys, fetchedBefore, fetched, head, base)
      ensures parent.number == head.number - 1
      ensures Walking(client, missing, asked, before, saved.Keys, fetchedBefore, fetched, parent, base)
    {
      WalkFinds(client, missing, asked, before, saved.Keys, fetchedBefore, fetched, head, base);
      parent := saved[head.parentHash];
    }

    /** One request, and whether it is the last. */
    method FetchNext(head: Block, ghost base: nat, ghost missing: seq<Hash>, ghost asked: nat, ghost before: set<Hash>,
        ghost fetchedBefore: seq<Hash>, ghost since: nat, ghost doneBefore: bool)
      returns (stop: bool, parent: Option<Block>)
      requires Valid() && head.number > base && head.parentHash !in saved && WellSoFar(asked, since, doneBefore)
      requires Walking(client, missing, asked, before, saved.Keys, fetchedBefore, fetched, head, base)
      modifies this
      ensures Valid() && (!stop ==> parent.Some?)
      ensures parent.Some? ==> parent.value.number == head.number - 1
      ensures !stop ==>
                && WellSoFar(asked + 1, since, doneBefore)
                && Walking(client, missing, asked + 1, before, saved.Keys, fetchedBefore, fetched, parent.value, base)
      ensures stop ==>
                && Asked(asked + 1, |missing|, since, doneBefore, parent.None?)
                && IsStretch(missing, asked + 1, if parent.Some? then asked + 1 else asked, before, saved.Keys,
                             fetchedBefore, fetched)
    {
      parent := FetchParent(head, base, missing, asked, before, fetchedBefore);
      stop := ctxDone || parent.None?;
      if stop {
        StopsHere(asked, |missing|, since, doneBefore, parent.None?);
      }
    }

    /** The in-memory chain of a head: every link is the client's, and the saver holds it. */
    ghost predicate Held(head: Head)
      reads this
    {
      && Known(client, Block(head.number, head.hash, head.parentHash)) && head.hash in saved
      && (head.parent.Some? ==> head.parent.value.hash == head.parentHash && head.number > 0 && Held(head.parent.value))
    }

    /**
     A nil result without cancellation means that the saver holds every ancestor down to `depth` blocks, or
     the genesis block. A head whose chain in memory is that long already costs no request.
     */
    method Backfill(headWithChain: Head, depth: nat) returns (failed: bool, ghost asked: nat, ghost kept: nat)
      requires Valid() && Held(headWithChain)
      modifies this
      ensures Valid()
      ensures !failed && !ctxDone ==>
                forall k :: 0 <= k < depth && k <= headWithChain.number ==>
                  Ancestor(client, BlockOf(headWithChain), k).hash in saved
      ensures ChainLength(headWithChain) >= depth ==> !failed && fetched == old(fetched) && saved == old(saved)
      ensures ChainLength(headWithChain) < depth ==>
                Known(client, BlockOf(EarliestHeadInChain(headWithChain)))
      ensures ChainLength(headWithChain) < depth ==>
                  && IsStretch(Missing(client, old(saved.Keys), BlockOf(EarliestHeadInChain(headWithChain)),
                       BaseHeight(headWithChain, depth)),
                               asked, kept, old(saved.Keys), saved.Keys, old(fetched), fetched)
                  && (if failed then asked == kept + 1 else asked == kept)
                  && Asked(asked, |Missing(client, old(saved.Keys), BlockOf(EarliestHeadInChain(headWithChain)),
                                           BaseHeight(headWithChain, depth))|,
                           old(requests), old(ctxDone), failed)
    {
      asked, kept := 0, 0;
      HeldAncestors(headWithChain);
      if ChainLength(headWithChain) >= depth {
        return false, 0, 0;
      }
      var earliest := EarliestHeadInChain(headWithChain);
      var base := headWithChain.number - (depth - 1);
      if base < 0 {
        base := 0;
      }
      ghost var before := saved.Keys;
      failed, asked, kept := BackfillFrom(BlockOf(earliest), base);
      if !failed && !ctxDone {
        AllSaved(client, headWithChain, before, saved.Keys, base);
      }
    }

    lemma {:induction false} HeldAncestors(head: Head)
      requires Valid() && Held(head)
      ensures ChainLength(head) - 1 <= head.number
      ensures forall k :: 0 <= k < ChainLength(head) ==> Ancestor(client, BlockOf(head), k).hash in saved
      ensures BlockOf(EarliestHeadInChain(head)) == Ancestor(client, BlockOf(head), ChainLength(head) - 1)
      decreases head
    {
      if head.parent.Some? {
        var parent := head.parent.value;
        HeldAncestors(parent);
        assert client[head.parentHash] == BlockOf(parent);
        forall k | 0 < k < ChainLength(head)
            ensures Ancestor(client, BlockOf(head), k) == Ancestor(client, BlockOf(parent), k - 1) {
        }
      }
    }
  }

  function BaseHeight(head: Head, depth: nat): nat {
    if head.number - (depth - 1) < 0 then 0 else head.number - (depth - 1)
  }

  function BlockOf(head: Head): Block {
    Block(head.number, head.hash, head.parentHash)
  }

  lemma {:induction false} AncestorOfAncestor(world: World, block: Block, j: nat, k: nat)
    requires Honest(world) && Known(world, block) && j + k <= block.number
    ensures Ancestor(world, Ancestor(world, block, j), k) == Ancestor(world, block, j + k)
    decreases j
  {
    if j > 0 {
      AncestorOfAncestor(world, world[block.parentHash], j - 1, k);
    }
  }

  /** Once the missing ones are saved, all ancestors above the base are. */
  lemma {:induction false} NoneMissing(world: World, before: set<Hash>, after: set<Hash>, block: Block, base: nat,
      k: nat)
    requires Honest(world) && Known(world, block)
    requires before + Elements(Missing(world, before, block, base)) <= after
    requires 0 < k <= block.number && block.number - k >= base
    ensures Ancestor(world, block, k).hash in after
    decreases k
  {
    var missing := Missing(world, before, block, base);
    var parent := world[block.parentHash];
    var rest := Missing(world, before, parent, base);
    assert Ancestor(world, block, k) == Ancestor(world, parent, k - 1);
    if block.parentHash !in before {
      assert missing[0] == block.parentHash && block.parentHash in missing;
    }
    assert block.parentHash in after;
    if k > 1 {
      assert forall h :: h in rest ==> h in missing;
      assert Elements(rest) <= Elements(missing);
      NoneMissing(world, before, after, parent, base, k - 1);
    }
  }

  /** The in-memory chain and what was filled in below it, together. */
  lemma AllSaved(world: World, head: Head, before: set<Hash>, after: set<Hash>, base: nat)
    requires Honest(world) && Known(world, BlockOf(head)) && ChainLength(head) - 1 <= head.number
    requires forall k :: 0 <= k < ChainLength(head) ==> Ancestor(world, BlockOf(head), k).hash in after
    requires BlockOf(EarliestHeadInChain(head)) == Ancestor(world, BlockOf(head), ChainLength(head) - 1)
    requires before + Elements(Missing(world, before, BlockOf(EarliestHeadInChain(head)), base)) <= after
    ensures forall k :: 0 <= k <= head.number - base ==> Ancestor(world, BlockOf(head), k).hash in after
  {
    var n := ChainLength(head) - 1;
    forall k | 0 <= k <= head.number - base ensures Ancestor(world, BlockOf(head), k).hash in after {
      if k > n {
        AncestorOfAncestor(world, BlockOf(head), n, k - n);
        NoneMissing(world, before, after, BlockOf(EarliestHeadInChain(head)), base, k - n);
      }
    }
  }
}
