/**
 * The same requests in memory: bios chained by bi_next between rq->bio and rq->biotail, re-linked in place by merges
 * and consumed from the front by completion.  All requests share one memory; the table keeps every chain well linked
 * and no bio on two of them, and its requests are those of the value model.
 */
module RequestList {

  import opened Lists
  import opened Sectors
  import opened Chains
  import opened Requests

  type BioMemory = Memory<Bio>

  /** struct request; `freed` once its bios were handed to another request. */
  datatype Record = Record(sector: nat, len: nat, nomerge: bool, bio: nat, biotail: nat, freed: bool)

  /** The nodes hold these bios. */
  predicate Holds(mem: BioMemory, nodes: seq<nat>, bios: seq<Bio>) {
    |nodes| == |bios| && forall i :: 0 <= i < |nodes| ==> nodes[i] in mem && mem[nodes[i]].value == bios[i]
  }

  /** The record and its chain stand for the request v: bio heads the null-terminated chain, biotail ends it. */
  ghost predicate Slot(mem: BioMemory, r: Record, nodes: seq<nat>, v: Rq) {
    && Chain(mem, r.bio, nodes) && Holds(mem, nodes, v.bios)
    && (nodes != [] ==> r.biotail == Last(nodes))
    && if r.freed then nodes == [] && v.len == 0
       else r.sector == v.sector && r.len == v.len && r.nomerge == v.nomerge
  }

  lemma {:induction false} SlotFrame(mem: BioMemory, mem': BioMemory, r: Record, nodes: seq<nat>, v: Rq)
    requires Slot(mem, r, nodes, v) && Agree(mem, mem', nodes)
    ensures Slot(mem', r, nodes, v)
  {
    ChainAgrees(mem, mem', r.bio, nodes);
  }

  /** Writes to the nodes of one list do not show on another. */
  predicate WrittenOn(mem: BioMemory, mem': BioMemory, nodes: seq<nat>) {
    forall a :: a in mem && a !in nodes ==> a in mem' && mem'[a] == mem[a]
  }

  lemma {:induction false} SlotApart(mem: BioMemory, mem': BioMemory, r: Record, nodes: seq<nat>, v: Rq,
      written: seq<nat>)
    requires Slot(mem, r, nodes, v) && Apart(nodes, written) && WrittenOn(mem, mem', written)
    ensures Slot(mem', r, nodes, v)
  {
    forall i | 0 <= i < |nodes| && nodes[i] in mem
      ensures nodes[i] in mem' && mem'[nodes[i]] == mem[nodes[i]]
    {
      assert nodes[i] in nodes;
    }
    SlotFrame(mem, mem', r, nodes, v);
  }

  ghost predicate Table(mem: BioMemory, rqs: seq<Record>, chains: seq<seq<nat>>, state: Layer) {
    && |rqs| == |chains| == |state.rqs| && AllValid(state)
    && (forall i :: 0 <= i < |rqs| ==> Slot(mem, rqs[i], chains[i], state.rqs[i]))
    && (forall i, j :: 0 <= i < |rqs| && 0 <= j < |rqs| && i != j ==> Apart(chains[i], chains[j]))
  }

  /** One slot changes, and only its old nodes and one new node, nobody's so far, are written. */
  lemma {:induction false} TableUpdate(mem: BioMemory, mem': BioMemory, rqs: seq<Record>, chains: seq<seq<nat>>,
                                       state: Layer, state': Layer, i: nat, r: Record, nodes: seq<nat>,
                                       gained: seq<nat>)
    requires Table(mem, rqs, chains, state) && i < |rqs| == |state'.rqs|
    requires Slot(mem', r, nodes, state'.rqs[i]) && Valid(state'.rqs[i])
    requires forall k :: 0 <= k < |rqs| && k != i ==> state'.rqs[k] == state.rqs[k]
    requires WrittenOn(mem, mem', chains[i] + gained) && forall k :: 0 <= k < |rqs| ==> Apart(gained, chains[k])
    requires forall a :: a in nodes ==> a in chains[i] || a in gained
    ensures Table(mem', rqs[i := r], chains[i := nodes], state')
  {
    var rqs', chains' := rqs[i := r], chains[i := nodes];
    forall k | 0 <= k < |rqs|
      ensures Slot(mem', rqs'[k], chains'[k], state'.rqs[k])
    {
      if k != i {
        assert Apart(chains[k], chains[i]);
        forall m | 0 <= m < |chains[k]| && chains[k][m] in mem
          ensures chains[k][m] in mem' && mem'[chains[k][m]] == mem[chains[k][m]]
        {
          assert chains[k][m] in chains[k] && Apart(gained, chains[k]);
        }
        SlotFrame(mem, mem', rqs[k], chains[k], state.rqs[k]);
      }
    }
    forall k, l | 0 <= k < |rqs| && 0 <= l < |rqs| && k != l
      ensures Apart(chains'[k], chains'[l])
    {
      assert Apart(chains[k], chains[l]);
    }
  }

  /** A bio as its submitter leaves it at address a. */
  function Arrive(mem: BioMemory, a: nat, b: Bio): BioMemory {
    mem[a := Node(b, 0)]
  }

  lemma {:induction false} NewSlot(mem: BioMemory, a: nat, b: Bio)
    requires a != 0
    ensures Slot(Arrive(mem, a, b), Record(b.sector, b.size, b.nomerge, a, a, false), [a], FromBio(b))
  {
    assert LinkOk(Arrive(mem, a, b), [a], 0);
  }

  lemma {:induction false} BackSlot(mem: BioMemory, r: Record, nodes: seq<nat>, v: Rq, a: nat, b: Bio)
    requires Slot(mem, r, nodes, v) && nodes != [] && a != 0 && a !in nodes
    ensures r.biotail in Arrive(mem, a, b)
    ensures Slot(SetNext(Arrive(mem, a, b), r.biotail, a), r.(biotail := a, len := r.len + b.size), nodes + [a],
              BackMerge(v, b))
  {
    var m := Arrive(mem, a, b);
    assert LinkOk(mem, nodes, |nodes| - 1);
    ChainAgrees(mem, m, r.bio, nodes);
    assert Chain(m, a, [a]) by {
      assert LinkOk(m, [a], 0);
    }
    JoinChains(m, r.bio, nodes, a, [a]);
  }

  lemma {:induction false} FrontSlot(mem: BioMemory, r: Record, nodes: seq<nat>, v: Rq, a: nat, b: Bio)
    requires Slot(mem, r, nodes, v) && nodes != [] && a != 0 && a !in nodes
    ensures Slot(SetNext(Arrive(mem, a, b), a, r.bio), r.(bio := a, sector := b.sector, len := r.len + b.size),
                 [a] + nodes, FrontMerge(v, b))
  {
    var m := Arrive(mem, a, b);
    ChainAgrees(mem, m, r.bio, nodes);
    PushFront(m, r.bio, nodes, a);
  }

  lemma {:induction false} JoinSlots(mem: BioMemory, r: Record, nodes: seq<nat>, v: Rq, q: Record, nodes': seq<nat>,
      w: Rq)
    requires Slot(mem, r, nodes, v) && Slot(mem, q, nodes', w) && nodes != [] && nodes' != [] && Apart(nodes, nodes')
    ensures r.biotail in mem
    ensures Slot(SetNext(mem, r.biotail, q.bio), r.(biotail := q.biotail, len := r.len + q.len), nodes + nodes',
              JoinRqs(v, w))
  {
    JoinChains(mem, r.bio, nodes, q.bio, nodes');
  }

  /** Slot i takes over the chain of slot j. */
  lemma {:induction false} TableJoin(mem: BioMemory, mem': BioMemory, rqs: seq<Record>, chains: seq<seq<nat>>,
                                     state: Layer, state': Layer, i: nat, j: nat, r: Record, q: Record)
    requires Table(mem, rqs, chains, state) && i < |rqs| == |state'.rqs| && j < |rqs| && i != j
    requires Slot(mem', r, chains[i] + chains[j], state'.rqs[i]) && Valid(state'.rqs[i])
    requires Slot(mem', q, [], state'.rqs[j]) && Valid(state'.rqs[j])
    requires forall k :: 0 <= k < |rqs| && k != i && k != j ==> state'.rqs[k] == state.rqs[k]
    requires WrittenOn(mem, mem', chains[i])
    ensures Table(mem', rqs[i := r][j := q], chains[i := chains[i] + chains[j]][j := []], state')
  {
    var rqs', chains' := rqs[i := r][j := q], chains[i := chains[i] + chains[j]][j := []];
    forall k | 0 <= k < |rqs|
      ensures Slot(mem', rqs'[k], chains'[k], state'.rqs[k])
    {
      if k != i && k != j {
        SlotApart(mem, mem', rqs[k], chains[k], state.rqs[k], chains[i]);
      }
    }
    forall k, l | 0 <= k < |rqs| && 0 <= l < |rqs| && k != l
      ensures Apart(chains'[k], chains'[l])
    {
      JoinedApart(chains, i, j, k, l);
    }
  }

  lemma {:induction false} JoinedApart(chains: seq<seq<nat>>, i: nat, j: nat, k: nat, l: nat)
    requires i < |chains| && j < |chains| && i != j && k < |chains| && l < |chains| && k != l
    requires forall a, b :: 0 <= a < |chains| && 0 <= b < |chains| && a != b ==> Apart(chains[a], chains[b])
    ensures var chains' := chains[i := chains[i] + chains[j]][j := []]; Apart(chains'[k], chains'[l])
  {
    assert Apart(chains[k], chains[l]);
    assert k != j ==> Apart(chains[k], chains[j]);
    assert l != j ==> Apart(chains[j], chains[l]);
  }

  // ---------------------------------------------------------------- consuming a chain

  /** A bio in place: its links stay. */
  function SetBio(mem: BioMemory, a: nat, b: Bio): BioMemory
    requires a in mem
  {
    mem[a := mem[a].(value := b)]
  }

  lemma {:induction false} SetBioKeeps(mem: BioMemory, a: nat, b: Bio, head: nat, nodes: seq<nat>)
    requires Chain(mem, head, nodes) && a in mem
    ensures Chain(SetBio(mem, a, b), head, nodes)
  {
    forall i | 0 <= i < |nodes|
      ensures LinkOk(SetBio(mem, a, b), nodes, i)
    {
      assert LinkOk(mem, nodes, i);
    }
  }

  /** What is left of a chain: its last nodes. */
  predicate TailOf(nodes: seq<nat>, all: seq<nat>) {
    (nodes != [] ==> all != [] && Last(nodes) == Last(all)) && forall a :: a in nodes ==> a in all
  }

  /** A chain partly consumed: from head on it holds these bios, and nothing but the chain was written. */
  ghost predicate Partly(mem0: BioMemory, mem: BioMemory, all: seq<nat>, head: nat, nodes: seq<nat>, bios: seq<Bio>) {
    && Chain(mem, head, nodes) && Holds(mem, nodes, bios) && TailOf(nodes, all) && WrittenOn(mem0, mem, all)
    && forall i :: 0 <= i < |bios| ==> bios[i].size > 0
  }

  /** The first bio is used up and leaves. */
  lemma {:induction false} PartlyPops(mem0: BioMemory, mem: BioMemory, all: seq<nat>, head: nat, nodes: seq<nat>,
      bios: seq<Bio>)
    requires Partly(mem0, mem, all, head, nodes, bios) && nodes != []
    ensures head in mem && mem[head].value == bios[0]
    ensures var mem' := SetBio(mem, head, Advance(bios[0], bios[0].size));
            Partly(mem0, mem', all, mem[head].next, nodes[1..], bios[1..])
  {
    UnlinkFirst(mem, head, nodes);
    var mem' := SetBio(mem, head, Advance(bios[0], bios[0].size));
    SetBioKeeps(mem, head, Advance(bios[0], bios[0].size), mem[head].next, nodes[1..]);
    forall i | 0 <= i < |nodes| - 1
      ensures nodes[1..][i] in mem' && mem'[nodes[1..][i]].value == bios[1..][i]
    {
      assert nodes[i + 1] in mem && mem[nodes[i + 1]].value == bios[i + 1] && nodes[i + 1] != nodes[0];
    }
    assert head in nodes;
  }

  /** The first bio is cut and stays. */
  lemma {:induction false} PartlyCuts(
    mem0: BioMemory, mem: BioMemory, all: seq<nat>, head: nat, nodes: seq<nat>, bios: seq<Bio>, n: nat)
    requires Partly(mem0, mem, all, head, nodes, bios) && nodes != [] && n < bios[0].size
    ensures head in mem && mem[head].value == bios[0]
    ensures Partly(mem0, SetBio(mem, head, Advance(bios[0], n)), all, head, nodes, [Advance(bios[0], n)] + bios[1..])
  {
    assert LinkOk(mem, nodes, 0);
    SetBioKeeps(mem, head, Advance(bios[0], n), head, nodes);
    assert head in nodes;
  }

  /** The fields of the request after the loop: `cur` is the length of the first segment of what is left. */
  function Updated(r: Record, head: nat, total: nat, cur: nat): Record {
    if r.bio == 0 then r
    else if head == 0 then r.(bio := 0, len := 0)
    else
      var len := r.len - total;
      r.(bio := head, len := if len < cur then cur else len, sector := r.sector + total / SECTOR)
  }

  /** The same on the value, with `bios` left. */
  function UpdatedValue(v: Rq, bios: seq<Bio>, total: nat, cur: nat): Rq {
    if v.bios == [] then v
    else if bios == [] then v.(bios := [], len := 0)
    else
      var len := v.len - total;
      v.(bios := bios, len := if len < cur then cur else len, sector := v.sector + total / SECTOR)
  }

  lemma {:induction false} UpdatedSlot(mem: BioMemory, mem': BioMemory, r: Record, all: seq<nat>, v: Rq, head: nat,
                                       nodes: seq<nat>, bios: seq<Bio>, total: nat, cur: nat)
    requires Slot(mem, r, all, v) && Partly(mem, mem', all, head, nodes, bios) && (v.bios == [] ==> bios == [])
    ensures Slot(mem', Updated(r, head, total, cur), nodes, UpdatedValue(v, bios, total, cur))
  {
    assert all != [] ==> LinkOk(mem, all, 0);
    assert nodes != [] ==> LinkOk(mem', nodes, 0);
  }

  lemma {:induction false} UpdatedValueIs(v: Rq, bytes: nat, segment: Bio -> nat, total: nat, cur: nat)
    requires Valid(v) && (bytes % SECTOR == 0 || bytes >= v.len) && forall b :: segment(b) <= b.size
    requires total == if bytes < v.len then bytes else v.len
    requires bytes < v.len ==> Rest(v.bios, bytes) != [] && cur == segment(Rest(v.bios, bytes)[0])
    ensures UpdatedValue(v, Rest(v.bios, bytes), total, cur) == Update(v, bytes, segment)
  {
    UpdateValid(v, bytes, segment);
  }

  lemma {:induction false} TableCompletes(
    mem: BioMemory, mem': BioMemory, rqs: seq<Record>, chains: seq<seq<nat>>, state: Layer, i: nat, bytes: nat,
    segment: Bio -> nat, head: nat, nodes: seq<nat>, total: nat)
    requires Table(mem, rqs, chains, state) && i < |rqs| && Enabled(state, Complete(i, bytes))
    requires forall b :: segment(b) <= b.size
    requires Partly(mem, mem', chains[i], head, nodes, Rest(state.rqs[i].bios, bytes))
    requires total == if bytes < state.rqs[i].len then bytes else state.rqs[i].len
    ensures head != 0 <==> bytes < state.rqs[i].len
    ensures var cur: nat := if head in mem' then segment(mem'[head].value) else 0;
            Table(mem', rqs[i := Updated(rqs[i], head, total, cur)], chains[i := nodes],
                  Do(state, Complete(i, bytes), segment))
  {
    var v, state' := state.rqs[i], Do(state, Complete(i, bytes), segment);
    var cur: nat := if head in mem' then segment(mem'[head].value) else 0;
    RestIsLeft(v, bytes, segment);
    assert nodes != [] ==> LinkOk(mem', nodes, 0);
    UpdatedSlot(mem, mem', rqs[i], chains[i], v, head, nodes, Rest(v.bios, bytes), total, cur);
    UpdatedValueIs(v, bytes, segment, total, cur);
    UpdateValid(v, bytes, segment);
    TableUpdate(mem, mem', rqs, chains, state, state', i, Updated(rqs[i], head, total, cur), nodes, []);
  }

  lemma {:induction false} TableMerges(
    mem: BioMemory, rqs: seq<Record>, chains: seq<seq<nat>>, state: Layer, i: nat, j: nat, segment: Bio -> nat)
    requires Table(mem, rqs, chains, state) && i < |rqs| && j < |rqs| && Enabled(state, MergeRequests(i, j))
    ensures rqs[i].biotail in mem
    ensures var r, q := rqs[i], rqs[j];
            Table(SetNext(mem, r.biotail, q.bio),
                  rqs[i := r.(biotail := q.biotail, len := r.len + q.len)][j := q.(bio := 0, freed := true)],
                  chains[i := chains[i] + chains[j]][j := []], Do(state, MergeRequests(i, j), segment))
  {
    var r, q, state' := rqs[i], rqs[j], Do(state, MergeRequests(i, j), segment);
    assert Apart(chains[i], chains[j]);
    JoinSlots(mem, r, chains[i], state.rqs[i], q, chains[j], state.rqs[j]);
    JoinRqsValid(state.rqs[i], state.rqs[j]);
    assert Last(chains[i]) in chains[i];
    TableJoin(mem, SetNext(mem, r.biotail, q.bio), rqs, chains, state, state', i, j,
              r.(biotail := q.biotail, len := r.len + q.len), q.(bio := 0, freed := true));
  }

  class RequestTable {
    var mem: BioMemory
    var rqs: seq<Record>
    ghost var chains: seq<seq<nat>>
    /** The same in the value model, with the bios that came in and ended. */
    ghost var state: Layer

    ghost predicate Valid()
      reads this
    {
      Table(mem, rqs, chains, state)
    }

    /** The bio at a is in no request. */
    ghost predicate Free(a: nat)
      reads this
    {
      a != 0 && forall i :: 0 <= i < |chains| ==> a !in chains[i]
    }

    constructor ()
      ensures Valid() && state == IDLE
    {
      mem, rqs, chains, state := map[], [], [], IDLE;
    }

    /** blk_mq_bio_to_request, with cmd_flags copied from the bio. */
    method BioToRequest(a: nat, b: Bio, ghost segment: Bio -> nat)
      requires Valid() && Free(a) && Whole(b)
      modifies this
      ensures Valid() && state == Do(old(state), New(b), segment) && chains == old(chains) + [[a]]
    {
      FromBioValid(b);
      NewSlot(mem, a, b);
      ghost var mem0 := mem;
      mem := Arrive(mem, a, b);
      rqs := rqs + [Record(b.sector, b.size, b.nomerge, a, a, false)];
      forall k | 0 <= k < |chains|
        ensures Slot(mem, rqs[k], chains[k], state.rqs[k])
      {
        SlotFrame(mem0, mem, rqs[k], chains[k], state.rqs[k]);
      }
      chains := chains + [[a]];
      state := Do(state, New(b), segment);
    }

    /** bio_attempt_back_merge */
    method BackMerge(i: nat, a: nat, b: Bio, ghost segment: Bio -> nat)
      requires Valid() && i < |rqs| && Free(a) && Whole(b) && TryMerge(state.rqs[i], b).Back?
      modifies this
      ensures Valid() && state == Do(old(state), Merge(i, b), segment)
              && chains == old(chains)[i := old(chains)[i] + [a]]
    {
      BackSlot(mem, rqs[i], chains[i], state.rqs[i], a, b);
      MergedValid(state.rqs[i], b, 0);
      ghost var mem0, state0 := mem, state;
      mem := Arrive(mem, a, b);
      mem := SetNext(mem, rqs[i].biotail, a);
      var r := rqs[i].(biotail := a, len := rqs[i].len + b.size);
      state := Do(state, Merge(i, b), segment);
      TableUpdate(mem0, mem, rqs, chains, state0, state, i, r, chains[i] + [a], [a]);
      rqs, chains := rqs[i := r], chains[i := chains[i] + [a]];
    }

    /** bio_attempt_front_merge */
    method FrontMerge(i: nat, a: nat, b: Bio, ghost segment: Bio -> nat)
      requires Valid() && i < |rqs| && Free(a) && Whole(b) && TryMerge(state.rqs[i], b).Front?
      modifies this
      ensures Valid() && state == Do(old(state), Merge(i, b), segment)
              && chains == old(chains)[i := [a] + old(chains)[i]]
    {
      FrontSlot(mem, rqs[i], chains[i], state.rqs[i], a, b);
      MergedValid(state.rqs[i], b, 0);
      ghost var mem0, state0 := mem, state;
      mem := Arrive(mem, a, b);
      mem := SetNext(mem, a, rqs[i].bio);
      var r := rqs[i].(bio := a, sector := b.sector, len := rqs[i].len + b.size);
      state := Do(state, Merge(i, b), segment);
      TableUpdate(mem0, mem, rqs, chains, state0, state, i, r, [a] + chains[i], [a]);
      rqs, chains := rqs[i := r], chains[i := [a] + chains[i]];
    }

    /** blk_rq_merge_ok and blk_try_merge choose the end, and the merge happens there if it fits (ll_back_merge_fn,
        ll_front_merge_fn). */
    method MergeBio(i: nat, a: nat, b: Bio, fits: bool, ghost segment: Bio -> nat) returns (ok: bool)
      requires Valid() && i < |rqs| && Free(a) && Whole(b)
      modifies this
      ensures Valid() && (ok <==> fits && Enabled(old(state), Merge(i, b)))
      ensures state == if ok then Do(old(state), Merge(i, b), segment) else old(state)
      ensures !ok ==> rqs == old(rqs) && mem == old(mem) && chains == old(chains)
    {
      var r := rqs[i];
      if !fits || r.nomerge || b.nomerge || r.bio == 0 {
        assert chains[i] != [] ==> LinkOk(mem, chains[i], 0);
        return false;
      }
      if r.sector + r.len / SECTOR == b.sector {
        BackMerge(i, a, b, segment);
        return true;
      }
      if r.sector == b.sector + b.size / SECTOR {
        FrontMerge(i, a, b, segment);
        return true;
      }
      return false;
    }

    /** attempt_merge: the request in slot i takes over the chain of the one in slot j, which is then freed. */
    method AttemptMerge(i: nat, j: nat, fits: bool, ghost segment: Bio -> nat) returns (ok: bool)
      requires Valid() && i < |rqs| && j < |rqs| && i != j
      modifies this
      ensures Valid() && (ok <==> fits && Enabled(old(state), MergeRequests(i, j)))
      ensures state == if ok then Do(old(state), MergeRequests(i, j), segment) else old(state)
      ensures chains == if ok then old(chains)[i := old(chains)[i] + old(chains)[j]][j := []] else old(chains)
      ensures !ok ==> rqs == old(rqs) && mem == old(mem)
    {
      var r, q := rqs[i], rqs[j];
      assert chains[i] != [] ==> LinkOk(mem, chains[i], 0);
      assert chains[j] != [] ==> LinkOk(mem, chains[j], 0);
      if !fits || r.nomerge || q.nomerge || r.bio == 0 || q.bio == 0 || r.sector + r.len / SECTOR != q.sector {
        return false;
      }
      TableMerges(mem, rqs, chains, state, i, j, segment);
      mem := SetNext(mem, r.biotail, q.bio);
      rqs := rqs[i := r.(biotail := q.biotail, len := r.len + q.len)][j := q.(bio := 0, freed := true)];
      chains := chains[i := chains[i] + chains[j]][j := []];
      state := Do(state, MergeRequests(i, j), segment);
      return true;
    }

    method SetNomerge(i: nat, ghost segment: Bio -> nat)
      requires Valid() && i < |rqs|
      modifies this
      ensures Valid() && state == Do(old(state), Action.SetNomerge(i), segment) && chains == old(chains)
    {
      ghost var state0 := state;
      var r := rqs[i].(nomerge := true);
      state := Do(state, Action.SetNomerge(i), segment);
      TableUpdate(mem, mem, rqs, chains, state0, state, i, r, chains[i], []);
      rqs := rqs[i := r];
    }

    /** The loop of blk_update_request: bios that are used up leave the chain and end, in order; the one that is cut
        stays, advanced. */
    method Consume(i: nat, bytes: nat) returns (head: nat, total: nat, ended: seq<nat>, ghost nodes: seq<nat>)
      requires Valid() && i < |rqs|
      modifies this`mem
      ensures Partly(old(mem), mem, chains[i], head, nodes, Rest(state.rqs[i].bios, bytes))
      ensures ended == Ended(state.rqs[i].bios, bytes)
      ensures total == if bytes < state.rqs[i].len then bytes else state.rqs[i].len
    {
      ghost var all, was := chains[i], state.rqs[i].bios;
      ghost var mem0, bios := mem, was;
      Positive(bios, state.rqs[i].sector);
      var left: nat := bytes;
      head, nodes, total, ended := rqs[i].bio, all, 0, [];
      while head != 0
        invariant Partly(mem0, mem, all, head, nodes, bios) && Eaten(was, bytes, bios, left, total, ended)
        decreases |nodes|
      {
        PartlyPops(mem0, mem, all, head, nodes, bios);
        var b := mem[head].value;
        if left < b.size {
          EatenCuts(was, bytes, bios, left, total, ended);
          PartlyCuts(mem0, mem, all, head, nodes, bios, left);
          mem := SetBio(mem, head, Advance(b, left));
          total := bytes;
          return;
        }
        EatenPops(was, bytes, bios, left, total, ended);
        var next := mem[head].next;
        mem := SetBio(mem, head, Advance(b, b.size));
        head := next;
        ended := ended + [b.id];
        total, left := total + b.size, left - b.size;
        nodes, bios := nodes[1..], bios[1..];
        if left == 0 {
          break;
        }
      }
      assert nodes != [] ==> LinkOk(mem, nodes, 0);
      EatenEnds(was, bytes, bios, left, total, ended);
    }

    /** blk_update_request without an error; `segment` stands for blk_rq_cur_bytes.  The repair of a "request botched"
        is never made. */
    method UpdateRequest(i: nat, bytes: nat, segment: Bio -> nat) returns (more: bool, ended: seq<nat>)
      requires Valid() && i < |rqs| && Enabled(state, Complete(i, bytes)) && forall b :: segment(b) <= b.size
      modifies this
      ensures Valid() && state == Do(old(state), Complete(i, bytes), segment)
      ensures ended == Ended(old(state).rqs[i].bios, bytes) && (more <==> bytes < old(state).rqs[i].len)
    {
      ghost var mem0 := mem;
      var head, total, done, nodes := Consume(i, bytes);
      TableCompletes(mem0, mem, rqs, chains, state, i, bytes, segment, head, nodes, total);
      var cur: nat := if head in mem then segment(mem[head].value) else 0;
      rqs, chains := rqs[i := Updated(rqs[i], head, total, cur)], chains[i := nodes];
      state := Do(state, Complete(i, bytes), segment);
      return head != 0, done;
    }
  }

  // ---------------------------------------------------------------- the bytes of a completion

  lemma {:induction false} RestIsLeft(v: Rq, bytes: nat, segment: Bio -> nat)
    requires Valid(v) && (bytes % SECTOR == 0 || bytes >= v.len) && forall b :: segment(b) <= b.size
    ensures (v.bios == [] ==> Rest(v.bios, bytes) == []) && (Rest(v.bios, bytes) != [] <==> bytes < v.len)
  {
    UpdateValid(v, bytes, segment);
  }

  /** Of `bytes` bytes, `total` have gone to the bios that ended; `bios` and `left` remain. */
  predicate Eaten(was: seq<Bio>, bytes: nat, bios: seq<Bio>, left: nat, total: nat, ended: seq<nat>) {
    && left + total == bytes && total + Sum(bios) == Sum(was)
    && Rest(bios, left) == Rest(was, bytes) && ended + Ended(bios, left) == Ended(was, bytes)
  }

  lemma {:induction false} EatenPops(was: seq<Bio>, bytes: nat, bios: seq<Bio>, left: nat, total: nat, ended: seq<nat>)
    requires Eaten(was, bytes, bios, left, total, ended) && bios != [] && left >= bios[0].size
    ensures Eaten(was, bytes, bios[1..], left - bios[0].size, total + bios[0].size, ended + [bios[0].id])
  {
    var rest := Ended(bios[1..], left - bios[0].size);
    assert ended + ([bios[0].id] + rest) == (ended + [bios[0].id]) + rest;
  }

  lemma {:induction false} EatenCuts(was: seq<Bio>, bytes: nat, bios: seq<Bio>, left: nat, total: nat, ended: seq<nat>)
    requires Eaten(was, bytes, bios, left, total, ended) && bios != [] && left < bios[0].size
    ensures Rest(was, bytes) == [Advance(bios[0], left)] + bios[1..] && ended == Ended(was, bytes) && bytes < Sum(was)
  {
    assert Ended(bios, left) == [] && ended + [] == ended;
  }

  lemma {:induction false} EatenEnds(was: seq<Bio>, bytes: nat, bios: seq<Bio>, left: nat, total: nat, ended: seq<nat>)
    requires Eaten(was, bytes, bios, left, total, ended) && (bios == [] || left == 0)
    requires forall i :: 0 <= i < |bios| ==> bios[i].size > 0
    ensures Rest(was, bytes) == bios && ended == Ended(was, bytes)
    ensures total == if bytes < Sum(was) then bytes else Sum(was)
  {
    if bios != [] {
      assert Advance(bios[0], 0) == bios[0] && [bios[0]] + bios[1..] == bios;
    }
    assert Ended(bios, left) == [] && ended + [] == ended;
  }
}
