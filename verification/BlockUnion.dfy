/**
 Several IPBlock peers of one rule share one set. This is what the merged set accepts, stated on the
 networks of the blocks, and how that compares with the union of the blocks.
 */
module BlockUnion {
  import opened Netfilter
  import opened IpBlocks

  ghost predicate ValidBlocks(blocks: seq<IpBlock>) {
    forall i :: 0 <= i < |blocks| ==> ValidBlock(blocks[i])
  }

  function AllEntries(blocks: seq<IpBlock>): seq<Entry> {
    if blocks == [] then [] else AllEntries(blocks[..|blocks| - 1]) + BlockEntries(blocks[|blocks| - 1])
  }

  /**
   The CIDR of block `i` beats an exception of block `j`: it is more specific, or as specific and
   of a later block.
   */
  predicate Outranks(cidr: Net, i: int, e: Net, j: int) {
    StoredLen(e) < StoredLen(cidr) || (StoredLen(e) == StoredLen(cidr) && j < i)
  }

  /** Block `i` holds the address, and its CIDR beats every exception of any block that holds the address. */
  ghost predicate Admits(blocks: seq<IpBlock>, i: int, a: Addr)
    requires ValidBlocks(blocks) && 0 <= i < |blocks|
  {
    && InNet(a, blocks[i].cidr)
    && forall j, e :: 0 <= j < |blocks| && e in blocks[j].except && InNet(a, e) ==> Outranks(blocks[i].cidr, i, e, j)
  }

  ghost predicate SomeAdmits(blocks: seq<IpBlock>, a: Addr)
    requires ValidBlocks(blocks)
  {
    exists i :: 0 <= i < |blocks| && Admits(blocks, i, a)
  }

  /** The set of this block alone accepts the address. */
  ghost predicate Accepts(b: IpBlock, a: Addr)
    requires ValidBlock(b)
  {
    InNet(a, b.cidr) && forall e :: e in b.except && StoredLen(b.cidr) <= StoredLen(e) ==> !InNet(a, e)
  }

  ghost predicate InUnion(blocks: seq<IpBlock>, a: Addr)
    requires ValidBlocks(blocks)
  {
    exists b :: b in blocks && Accepts(b, a)
  }

  // The stored flag of the prefix of length `len` of an address.

  ghost predicate Refuses(b: IpBlock, a: Addr, len: nat)
    requires ValidBlock(b)
  {
    exists e :: e in b.except && Hits(e, a, len)
  }

  ghost predicate RefusedFrom(blocks: seq<IpBlock>, i: int, a: Addr, len: nat)
    requires ValidBlocks(blocks)
  {
    exists j :: 0 <= i <= j < |blocks| && Refuses(blocks[j], a, len)
  }

  /** An acceptance that nothing later replaces. */
  ghost predicate AcceptedAt(blocks: seq<IpBlock>, a: Addr, len: nat)
    requires ValidBlocks(blocks)
  {
    exists i :: 0 <= i < |blocks| && Hits(blocks[i].cidr, a, len) && !RefusedFrom(blocks, i, a, len)
  }

  ghost predicate StoredAt(blocks: seq<IpBlock>, a: Addr, len: nat)
    requires ValidBlocks(blocks)
  {
    exists i :: 0 <= i < |blocks| && (Hits(blocks[i].cidr, a, len) || Refuses(blocks[i], a, len))
  }

  lemma {:induction false} LoadedConcat(es: seq<Entry>, more: seq<Entry>, p: Prefix)
    requires Storable(es) && Storable(more)
    ensures Storable(es + more)
    ensures p in Loaded(es + more) <==> p in Loaded(es) || p in Loaded(more)
    ensures p in Loaded(more) ==> Loaded(es + more)[p] == Loaded(more)[p]
    ensures p in Loaded(es) && p !in Loaded(more) ==> Loaded(es + more)[p] == Loaded(es)[p]
  {
    hide PrefixOf;
    if more == [] {
      assert es + more == es;
    } else {
      var front := more[..|more| - 1];
      LoadedConcat(es, front, p);
      assert (es + more)[..|es + more| - 1] == es + front;
    }
  }

  /** One block alone: an exception has the last word on its prefix. */
  lemma BlockLoaded(b: IpBlock, a: Addr, len: nat)
    requires ValidBlock(b) && 1 <= len <= 32
    ensures Storable(BlockEntries(b))
    ensures var m, p := Loaded(BlockEntries(b)), PrefixOf(Net(a, len));
            && (p in m <==> Hits(b.cidr, a, len) || Refuses(b, a, len))
            && (p in m ==> (m[p] <==> Refuses(b, a, len)))
  {
    EmittedHits(b.cidr, false, a, len);
    ExceptionsHit(b.except, a, len);
    LoadedFlags(Emitted(b.cidr, false), Exceptions(b.except), PrefixOf(Net(a, len)));
  }

  lemma NothingLoaded()
    ensures Storable([]) && Loaded([]) == map[]
  {
  }

  lemma FlagsAppend(blocks: seq<IpBlock>, front: seq<IpBlock>, b: IpBlock, a: Addr, len: nat)
    requires ValidBlocks(blocks) && ValidBlocks(front) && ValidBlock(b) && blocks == front + [b]
    ensures StoredAt(blocks, a, len) <==> StoredAt(front, a, len) || Hits(b.cidr, a, len) || Refuses(b, a, len)
    ensures AcceptedAt(blocks, a, len) <==> !Refuses(b, a, len) && (Hits(b.cidr, a, len) || AcceptedAt(front, a, len))
  {
    hide Hits, Refuses;
    var n := |front|;
    assert blocks[n] == b && forall i :: 0 <= i < n ==> blocks[i] == front[i];
    forall i | 0 <= i <= n
      ensures RefusedFrom(blocks, i, a, len) <==> Refuses(b, a, len) || RefusedFrom(front, i, a, len)
    {
      if j :| 0 <= i <= j < |blocks| && Refuses(blocks[j], a, len) {
        assert j == n || Refuses(front[j], a, len);
      }
      if j :| 0 <= i <= j < |front| && Refuses(front[j], a, len) {
        assert Refuses(blocks[j], a, len);
      }
    }
    assert !RefusedFrom(front, n, a, len);
    if i :| 0 <= i < |blocks| && Hits(blocks[i].cidr, a, len) && !RefusedFrom(blocks, i, a, len) {
      assert i < n ==> Hits(front[i].cidr, a, len);
    }
    if i :| 0 <= i < |front| && Hits(front[i].cidr, a, len) && !RefusedFrom(front, i, a, len) {
      assert Hits(blocks[i].cidr, a, len);
    }
  }

  lemma {:induction false} AllLoaded(blocks: seq<IpBlock>, a: Addr, len: nat)
    requires ValidBlocks(blocks) && 1 <= len <= 32
    ensures Storable(AllEntries(blocks))
    ensures var m, p := Loaded(AllEntries(blocks)), PrefixOf(Net(a, len));
            && (p in m <==> StoredAt(blocks, a, len))
            && (p in m ==> (!m[p] <==> AcceptedAt(blocks, a, len)))
  {
    hide PrefixOf, Hits, Refuses, Loaded, BlockEntries, Storable;
    if blocks == [] {
      NothingLoaded();
    } else {
      var n := |blocks| - 1;
      var front, b := blocks[..n], blocks[n];
      AllLoaded(front, a, len);
      BlockLoaded(b, a, len);
      LoadedConcat(AllEntries(front), BlockEntries(b), PrefixOf(Net(a, len)));
      FlagsAppend(blocks, front, b, a, len);
    }
  }

  /** No network of length above `len` holds the address. */
  ghost predicate NoneAbove(blocks: seq<IpBlock>, a: Addr, len: nat)
    requires ValidBlocks(blocks)
  {
    forall l :: len < l ==> !StoredAt(blocks, a, l)
  }

  lemma NetsBelow(blocks: seq<IpBlock>, a: Addr, len: nat)
    requires ValidBlocks(blocks) && NoneAbove(blocks, a, len)
    ensures forall i :: 0 <= i < |blocks| && InNet(a, blocks[i].cidr) ==> StoredLen(blocks[i].cidr) <= len
    ensures forall j, e :: 0 <= j < |blocks| && e in blocks[j].except && InNet(a, e) ==> StoredLen(e) <= len
  {
    hide InNet;
    forall i | 0 <= i < |blocks| && InNet(a, blocks[i].cidr)
      ensures StoredLen(blocks[i].cidr) <= len
    {
      assert Hits(blocks[i].cidr, a, StoredLen(blocks[i].cidr));
      assert StoredAt(blocks, a, StoredLen(blocks[i].cidr));
    }
    forall j, e | 0 <= j < |blocks| && e in blocks[j].except && InNet(a, e)
      ensures StoredLen(e) <= len
    {
      assert Refuses(blocks[j], a, StoredLen(e));
      assert StoredAt(blocks, a, StoredLen(e));
    }
  }

  lemma AdmittedOnTop(blocks: seq<IpBlock>, i: int, a: Addr, len: nat)
    requires ValidBlocks(blocks) && NoneAbove(blocks, a, len) && StoredAt(blocks, a, len)
    requires 0 <= i < |blocks| && Admits(blocks, i, a)
    ensures AcceptedAt(blocks, a, len)
  {
    hide InNet, NoneAbove;
    NetsBelow(blocks, a, len);
    var k :| 0 <= k < |blocks| && (Hits(blocks[k].cidr, a, len) || Refuses(blocks[k], a, len));
    if Refuses(blocks[k], a, len) {
      var e :| e in blocks[k].except && Hits(e, a, len);
      assert StoredLen(blocks[i].cidr) == len;
      assert forall j :: i <= j < |blocks| ==> !Refuses(blocks[j], a, len);
    } else if StoredLen(blocks[i].cidr) == len {
      assert forall j :: i <= j < |blocks| ==> !Refuses(blocks[j], a, len);
    } else {
      assert forall j :: k <= j < |blocks| ==> !Refuses(blocks[j], a, len);
    }
  }

  /** Where the most specific network that holds the address is stored, its flag decides. */
  lemma TopDecides(blocks: seq<IpBlock>, a: Addr, len: nat)
    requires ValidBlocks(blocks) && NoneAbove(blocks, a, len) && StoredAt(blocks, a, len)
    ensures AcceptedAt(blocks, a, len) <==> SomeAdmits(blocks, a)
  {
    hide InNet, NoneAbove, StoredAt;
    NetsBelow(blocks, a, len);
    if i :| 0 <= i < |blocks| && Hits(blocks[i].cidr, a, len) && !RefusedFrom(blocks, i, a, len) {
      forall j, e | 0 <= j < |blocks| && e in blocks[j].except && InNet(a, e)
        ensures Outranks(blocks[i].cidr, i, e, j)
      {
        assert StoredLen(e) == len ==> Refuses(blocks[j], a, len) by {
          assert StoredLen(e) == len ==> Hits(e, a, len);
        }
      }
      assert Admits(blocks, i, a);
    }
    if i :| 0 <= i < |blocks| && Admits(blocks, i, a) {
      AdmittedOnTop(blocks, i, a, len);
    }
  }

  lemma {:induction false} LookupAll(blocks: seq<IpBlock>, a: Addr, len: nat)
    requires ValidBlocks(blocks) && len <= 32 && NoneAbove(blocks, a, len)
    ensures Storable(AllEntries(blocks))
    ensures NetLookup(Loaded(AllEntries(blocks)), a, len) <==> SomeAdmits(blocks, a)
    decreases len
  {
    hide PrefixOf, Loaded, AcceptedAt, StoredAt, Storable;
    AllLoaded(blocks, a, if len == 0 then 1 else len);
    if len == 0 {
      NetsBelow(blocks, a, 0);
    } else if StoredAt(blocks, a, len) {
      TopDecides(blocks, a, len);
    } else {
      LookupAll(blocks, a, len - 1);
    }
  }

  /** What the merged set accepts, for every list of blocks and every address. */
  lemma MergedMeaning(blocks: seq<IpBlock>, a: Addr)
    requires ValidBlocks(blocks)
    ensures Storable(AllEntries(blocks))
    ensures InSet(HashNet(Loaded(AllEntries(blocks))), a) <==> SomeAdmits(blocks, a)
  {
    assert NoneAbove(blocks, a, 32);
    hide Loaded, SomeAdmits;
    LookupAll(blocks, a, 32);
  }

  /** The merged set never accepts more than the blocks do one by one. */
  lemma MergedWithinUnion(blocks: seq<IpBlock>, a: Addr)
    requires ValidBlocks(blocks) && SomeAdmits(blocks, a)
    ensures InUnion(blocks, a)
  {
    var i :| 0 <= i < |blocks| && Admits(blocks, i, a);
    assert blocks[i] in blocks && Accepts(blocks[i], a);
  }

  /** Exception `e` of block `j` takes the address away from block `i`, of which it is no exception. */
  ghost predicate Shadows(blocks: seq<IpBlock>, i: int, j: int, e: Net, a: Addr)
    requires ValidBlocks(blocks) && 0 <= i < |blocks| && 0 <= j < |blocks| && e in blocks[j].except
  {
    i != j && InNet(a, e) && !Outranks(blocks[i].cidr, i, e, j)
  }

  ghost predicate Shadowed(blocks: seq<IpBlock>, i: int, a: Addr)
    requires ValidBlocks(blocks) && 0 <= i < |blocks|
  {
    exists j, e :: 0 <= j < |blocks| && e in blocks[j].except && Shadows(blocks, i, j, e, a)
  }

  /** The address is admitted exactly when some block accepts it that no other block shadows there. */
  lemma MergedExactly(blocks: seq<IpBlock>, a: Addr)
    requires ValidBlocks(blocks)
    ensures SomeAdmits(blocks, a) <==>
            exists i :: 0 <= i < |blocks| && Accepts(blocks[i], a) && !Shadowed(blocks, i, a)
  {
    hide InNet;
    forall i | 0 <= i < |blocks|
      ensures Admits(blocks, i, a) <==> Accepts(blocks[i], a) && !Shadowed(blocks, i, a)
    {
      if Accepts(blocks[i], a) && !Shadowed(blocks, i, a) {
        forall j, e | 0 <= j < |blocks| && e in blocks[j].except && InNet(a, e)
          ensures Outranks(blocks[i].cidr, i, e, j)
        {
          assert i != j ==> !Shadows(blocks, i, j, e, a);
        }
      }
    }
  }

  /** 10.0.0.0/8 except 10.1.0.0/16, together with 10.1.0.0/16: the order of the peers decides about 10.1.0.0. */
  lemma OrderMatters()
    ensures var wide, inner := IpBlock(Net(0x0A00_0000, 8), [Net(0x0A01_0000, 16)]), IpBlock(Net(0x0A01_0000, 16), []);
            && ValidBlocks([wide, inner]) && ValidBlocks([inner, wide])
            && SomeAdmits([wide, inner], 0x0A01_0000) && !SomeAdmits([inner, wide], 0x0A01_0000)
            && InUnion([inner, wide], 0x0A01_0000)
  {
    var wide, inner := IpBlock(Net(0x0A00_0000, 8), [Net(0x0A01_0000, 16)]), IpBlock(Net(0x0A01_0000, 16), []);
    hide Leading;
    var a: Addr := 0x0A01_0000;
    assert Admits([wide, inner], 1, a);
    assert wide.except[0] in [inner, wide][1].except && InNet(a, wide.except[0]);
    assert Accepts(inner, a) && inner in [inner, wide];
  }
}
