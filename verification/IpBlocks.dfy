/**
 IPBlock peers: a CIDR with exceptions becomes the entries of one hash:net set. A /0 cannot be
 stored in such a set, so it is written as its two halves.
 */
module IpBlocks {
  import opened Basics
  import opened Netfilter

  datatype IpBlock = IpBlock(cidr: Net, except: seq<Net>)

  datatype Entry = Entry(net: Net, nomatch: bool)

  ghost predicate ValidBlock(b: IpBlock) {
    b.cidr.len <= 32 && forall e :: e in b.except ==> e.len <= 32
  }

  /** The entries written for one network. */
  function Emitted(n: Net, nomatch: bool): seq<Entry> {
    if n.len == 0 then [Entry(Net(0, 1), nomatch), Entry(Net(0x8000_0000, 1), nomatch)]
    else [Entry(n, nomatch)]
  }

  function Exceptions(except: seq<Net>): seq<Entry> {
    if except == [] then []
    else Exceptions(except[..|except| - 1]) + Emitted(except[|except| - 1], true)
  }

  function BlockEntries(b: IpBlock): seq<Entry> {
    Emitted(b.cidr, false) + Exceptions(b.except)
  }

  method EvalIPBlockPeer(b: IpBlock) returns (entries: seq<Entry>)
    ensures entries == BlockEntries(b)
  {
    if b.cidr.len == 0 {
      entries := [Entry(Net(0, 1), false), Entry(Net(0x8000_0000, 1), false)];
    } else {
      entries := [Entry(b.cidr, false)];
    }
    for i := 0 to |b.except|
      invariant entries == Emitted(b.cidr, false) + Exceptions(b.except[..i])
    {
      assert b.except[..i + 1][..i] == b.except[..i];
      if b.except[i].len == 0 {
        entries := entries + [Entry(Net(0, 1), true), Entry(Net(0x8000_0000, 1), true)];
      } else {
        entries := entries + [Entry(b.except[i], true)];
      }
    }
    assert b.except[..|b.except|] == b.except;
  }

  /** Can every entry be stored? hash:net refuses a zero prefix length. */
  predicate Storable(entries: seq<Entry>) {
    forall e :: e in entries ==> 1 <= e.net.len <= 32
  }

  /** The set after adding the entries in order: a later add of the same network replaces the earlier one. */
  function Loaded(entries: seq<Entry>): map<Prefix, bool>
    requires Storable(entries)
  {
    if entries == [] then map[]
    else
      var last := entries[|entries| - 1];
      Loaded(entries[..|entries| - 1])[PrefixOf(last.net) := last.nomatch]
  }

  /** The length under which a network is stored. */
  function StoredLen(n: Net): nat {
    if n.len == 0 then 1 else n.len
  }

  /** What the block means: the CIDR without its exceptions. */
  predicate InBlock(a: Addr, b: IpBlock)
    requires ValidBlock(b)
  {
    InNet(a, b.cidr) && forall e :: e in b.except ==> !InNet(a, e)
  }

  /** Is some stored form of `n` the prefix of length `len` of the address? */
  predicate Hits(n: Net, a: Addr, len: nat)
    requires n.len <= 32
  {
    len == StoredLen(n) && InNet(a, n)
  }

  ghost predicate Has(entries: seq<Entry>, p: Prefix)
    requires Storable(entries)
  {
    exists e :: e in entries && PrefixOf(e.net) == p
  }

  function Pow2(n: nat): (p: nat)
    ensures p > 0
  {
    if n == 0 then 1 else 2 * Pow2(n - 1)
  }

  /** Halving and then dividing by `m`. */
  lemma HalveAndDivide(a: nat, m: nat)
    requires m > 0
    ensures a / 2 / m == a / (2 * m)
  {
    var q, r := a / 2 / m, a / 2 % m;
    var t := 2 * r + a % 2;
    assert a == 2 * m * q + t && t < 2 * m;
    Quotient(a, 2 * m, q, t);
  }

  lemma {:induction false} LeadingDivides(a: nat, host: nat)
    ensures Leading(a, host) == a / Pow2(host)
    decreases host
  {
    if host > 0 {
      LeadingDivides(a / 2, host - 1);
      HalveAndDivide(a, Pow2(host - 1));
    }
  }

  /** An address lies in a network when they agree after division by the number of the network's addresses. */
  lemma InNetMeaning(a: Addr, n: Net)
    requires n.len <= 32
    ensures InNet(a, n) <==> a / Pow2(32 - n.len) == n.base / Pow2(32 - n.len)
  {
    LeadingDivides(a, 32 - n.len);
    LeadingDivides(n.base, 32 - n.len);
  }

  lemma {:induction false} LeadingBound(a: nat, host: nat, rest: nat)
    requires a < Pow2(host + rest)
    ensures Leading(a, host) < Pow2(rest)
    decreases host
  {
    if host > 0 {
      assert Pow2(host + rest) == 2 * Pow2(host - 1 + rest);
      LeadingBound(a / 2, host - 1, rest);
    }
  }

  lemma {:induction false} LeadingAdds(a: nat, i: nat, j: nat)
    ensures Leading(a, i + j) == Leading(Leading(a, i), j)
    decreases i
  {
    if i > 0 {
      LeadingAdds(a / 2, i - 1, j);
    }
  }

  lemma {:induction false} LeadingOfShifted(k: nat, host: nat)
    ensures Leading(k * Pow2(host), host) == k
  {
    if host > 0 {
      assert k * Pow2(host) == 2 * (k * Pow2(host - 1));
      LeadingOfShifted(k, host - 1);
    }
  }

  lemma Powers()
    ensures Pow2(8) == 0x100 && Pow2(16) == 0x1_0000 && Pow2(31) == 0x8000_0000 && Pow2(32) == 0x1_0000_0000
  {
    assert Pow2(4) == 16;
    assert Pow2(8) == 0x100;
    assert Pow2(12) == 0x1000;
    assert Pow2(16) == 0x1_0000;
    assert Pow2(20) == 0x10_0000;
    assert Pow2(24) == 0x100_0000;
    assert Pow2(28) == 0x1000_0000;
  }

  /** Every address starts with a zero or a one bit. */
  lemma FirstBit(a: Addr)
    ensures Leading(a, 31) <= 1 && Leading(a, 32) == 0
    ensures Leading(0x8000_0000, 31) == 1 && Leading(0, 31) == 0
  {
    Powers();
    LeadingBound(a, 31, 1);
    LeadingBound(a, 32, 0);
    LeadingOfShifted(1, 31);
    LeadingBound(0, 31, 0);
  }

  lemma EmittedHits(n: Net, nomatch: bool, a: Addr, len: nat)
    requires n.len <= 32 && 1 <= len <= 32
    ensures Storable(Emitted(n, nomatch))
    ensures Has(Emitted(n, nomatch), PrefixOf(Net(a, len))) <==> Hits(n, a, len)
  {
    var es := Emitted(n, nomatch);
    if n.len == 0 {
      FirstBit(a);
      FirstBit(n.base);
      assert es[0] in es && es[1] in es;
      if len == 1 {
        assert PrefixOf(Net(a, len)) == PrefixOf(es[0].net) || PrefixOf(Net(a, len)) == PrefixOf(es[1].net);
      }
    } else {
      assert es[0] in es;
    }
  }

  lemma {:induction false} ExceptionsHit(except: seq<Net>, a: Addr, len: nat)
    requires forall e :: e in except ==> e.len <= 32
    requires 1 <= len <= 32
    ensures Storable(Exceptions(except)) && forall e :: e in Exceptions(except) ==> e.nomatch
    ensures Has(Exceptions(except), PrefixOf(Net(a, len))) <==> exists e :: e in except && Hits(e, a, len)
  {
    if except != [] {
      var front, last := except[..|except| - 1], except[|except| - 1];
      ExceptionsHit(front, a, len);
      EmittedHits(last, true, a, len);
      var p := PrefixOf(Net(a, len));
      assert Has(Exceptions(except), p) <==> Has(Exceptions(front), p) || Has(Emitted(last, true), p);
      assert forall e :: e in except <==> e in front || e == last;
    }
  }

  /** After acceptances and then exceptions, the flag of a stored prefix says whether an exception has it. */
  lemma {:induction false} LoadedFlags(accepted: seq<Entry>, refused: seq<Entry>, p: Prefix)
    requires Storable(accepted) && Storable(refused)
    requires forall e :: e in accepted ==> !e.nomatch
    requires forall e :: e in refused ==> e.nomatch
    ensures Storable(accepted + refused)
    ensures p in Loaded(accepted + refused) <==> Has(accepted, p) || Has(refused, p)
    ensures p in Loaded(accepted + refused) ==> (Loaded(accepted + refused)[p] <==> Has(refused, p))
    decreases |accepted| + |refused|
  {
    var all := accepted + refused;
    if refused != [] {
      var front, last := refused[..|refused| - 1], refused[|refused| - 1];
      LoadedFlags(accepted, front, p);
      assert all[..|all| - 1] == accepted + front;
      assert Has(refused, p) <==> Has(front, p) || PrefixOf(last.net) == p;
    } else if accepted != [] {
      var front, last := accepted[..|accepted| - 1], accepted[|accepted| - 1];
      LoadedFlags(front, [], p);
      assert all == accepted && front + [] == front;
      assert Has(accepted, p) <==> Has(front, p) || PrefixOf(last.net) == p;
    }
  }

  /** Searching a block's set from `len` down. */
  lemma {:induction false} LookupFrom(b: IpBlock, a: Addr, len: nat)
    requires ValidBlock(b) && len <= 32
    requires forall e, l :: e in b.except && len < l ==> !Hits(e, a, l)
    requires len < StoredLen(b.cidr) ==> !InNet(a, b.cidr)
    ensures Storable(BlockEntries(b))
    ensures NetLookup(Loaded(BlockEntries(b)), a, len) <==>
            InNet(a, b.cidr) && forall e :: e in b.except && StoredLen(b.cidr) <= StoredLen(e) ==> !InNet(a, e)
    decreases len
  {
    EmittedHits(b.cidr, false, a, if len == 0 then 1 else len);
    ExceptionsHit(b.except, a, if len == 0 then 1 else len);
    hide PrefixOf, Emitted, Exceptions, Has;
    if len > 0 {
      var p := PrefixOf(Net(a, len));
      LoadedFlags(Emitted(b.cidr, false), Exceptions(b.except), p);
      if p in Loaded(BlockEntries(b)) {
        if e :| e in b.except && Hits(e, a, len) {
          assert Loaded(BlockEntries(b))[p];
        } else {
          assert Hits(b.cidr, a, len);
          forall e | e in b.except && StoredLen(b.cidr) <= StoredLen(e)
            ensures !InNet(a, e)
          {
            assert !Hits(e, a, StoredLen(e));
          }
        }
      } else {
        assert forall e :: e in b.except ==> !Hits(e, a, len);
        LookupFrom(b, a, len - 1);
      }
    }
  }

  /**
   What the emitted set accepts, for every block: the CIDR without those exceptions that are
   stored at least as specifically as the CIDR itself.
   */
  lemma BlockSetMeaning(b: IpBlock, a: Addr)
    requires ValidBlock(b)
    ensures Storable(BlockEntries(b))
    ensures InSet(HashNet(Loaded(BlockEntries(b))), a) <==>
            InNet(a, b.cidr) && forall e :: e in b.except && StoredLen(b.cidr) <= StoredLen(e) ==> !InNet(a, e)
  {
    LookupFrom(b, a, 32);
  }

  /** A network no longer than the CIDR holds all of it or none, as it holds its base or not. */
  lemma WiderHoldsAll(cidr: Net, w: Net, a: Addr)
    requires w.len <= cidr.len <= 32 && InNet(a, cidr)
    ensures InNet(a, w) <==> InNet(cidr.base, w)
  {
    hide Leading;
    LeadingAdds(a, 32 - cidr.len, cidr.len - w.len);
    LeadingAdds(cidr.base, 32 - cidr.len, cidr.len - w.len);
  }

  /** An exception stored less specifically than the CIDR holds the CIDR. */
  ghost predicate WideException(b: IpBlock)
    requires ValidBlock(b)
  {
    exists w :: w in b.except && StoredLen(w) < StoredLen(b.cidr) && InNet(b.cidr.base, w)
  }

  /** The other exceptions leave nothing of the CIDR. */
  ghost predicate InnerExceptionsCover(b: IpBlock)
    requires ValidBlock(b)
  {
    forall a: Addr :: InNet(a, b.cidr) ==> exists e :: e in b.except && StoredLen(b.cidr) <= StoredLen(e) && InNet(a, e)
  }

  lemma BlockMeaning(b: IpBlock, a: Addr)
    requires ValidBlock(b)
    ensures InBlock(a, b) <==>
            && !WideException(b) && InNet(a, b.cidr)
            && forall e :: e in b.except && StoredLen(b.cidr) <= StoredLen(e) ==> !InNet(a, e)
  {
    if InNet(a, b.cidr) {
      forall w | w in b.except && StoredLen(w) < StoredLen(b.cidr)
        ensures InNet(a, w) <==> InNet(b.cidr.base, w)
      {
        WiderHoldsAll(b.cidr, w, a);
      }
    }
  }

  /**
   The set means the block exactly when no wider exception holds the CIDR, or the others leave
   nothing of it anyway.
   */
  lemma BlockSetExact(b: IpBlock)
    requires ValidBlock(b)
    ensures Storable(BlockEntries(b))
    ensures (forall a: Addr :: InSet(HashNet(Loaded(BlockEntries(b))), a) <==> InBlock(a, b)) <==>
            !WideException(b) || InnerExceptionsCover(b)
  {
    hide InNet, Loaded, InBlock, WideException;
    BlockSetMeaning(b, 0);
    var accepted := HashNet(Loaded(BlockEntries(b)));
    forall a: Addr
      ensures InSet(accepted, a) <==>
              InNet(a, b.cidr) && forall e :: e in b.except && StoredLen(b.cidr) <= StoredLen(e) ==> !InNet(a, e)
      ensures InBlock(a, b) <==> InSet(accepted, a) && !WideException(b)
    {
      BlockSetMeaning(b, a);
      BlockMeaning(b, a);
    }
  }

  /** Exceptions strictly inside the CIDR, which is what the API asks for, are honoured. */
  lemma InnerExceptionsExact(b: IpBlock, a: Addr)
    requires ValidBlock(b)
    requires forall e :: e in b.except ==> b.cidr.len < e.len
    ensures Storable(BlockEntries(b))
    ensures InSet(HashNet(Loaded(BlockEntries(b))), a) <==> InBlock(a, b)
  {
    BlockSetMeaning(b, a);
  }

  /** An exception wider than its CIDR is lost: 10.1.0.0/16 except 10.0.0.0/8 still admits 10.1.0.0. */
  lemma WideExceptionLost()
    ensures var b := IpBlock(Net(0x0A01_0000, 16), [Net(0x0A00_0000, 8)]);
            && Storable(BlockEntries(b))
            && InSet(HashNet(Loaded(BlockEntries(b))), 0x0A01_0000)
            && !InBlock(0x0A01_0000, b)
  {
    var b := IpBlock(Net(0x0A01_0000, 16), [Net(0x0A00_0000, 8)]);
    BlockSetMeaning(b, 0x0A01_0000);
    assert Leading(0x0A01_0000, 24) == Leading(0x0A00_0000, 24) by {
      Powers();
      LeadingAdds(0x0A01_0000, 16, 8);
      LeadingAdds(0x0A00_0000, 16, 8);
      LeadingOfShifted(0x0A01, 16);
      LeadingOfShifted(0x0A00, 16);
      assert Leading(0x0A01, 8) == 0x0A == Leading(0x0A00, 8);
    }
    assert b.except[0] in b.except;
  }
}
