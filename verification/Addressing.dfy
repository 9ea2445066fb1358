/**
 Mapping of connection indices to local endpoints.  The arithmetic is that of
 the release profile the image is built with, so both additions wrap.
 */
module Addressing {
  import opened Common

  /** First dynamic port, section 6 of RFC 6335. */
  const FIRST_PORT: nat := 49152

  /** How many ports the dynamic range holds. */
  const DYNAMIC_PORTS: nat := 16384

  datatype Endpoint = Endpoint(addr: nat, port: nat)

  function LocalEndpoint(base: nat, perAddr: nat, index: nat): Endpoint
    requires perAddr > 0
  {
    Endpoint((base + index / perAddr + 1) % 0x1_0000_0000, (FIRST_PORT + index % perAddr) % 0x1_0000)
  }

  /** Neither addition leaves its width, so the debug profile computes the same endpoint. */
  predicate Fits(base: nat, perAddr: nat, index: nat)
    requires perAddr > 0
  {
    base + index / perAddr + 1 < U32 && FIRST_PORT + index % perAddr < U16
  }

  /** The inverse of LocalEndpoint, computed from the endpoint alone. */
  function IndexOf(base: nat, perAddr: nat, e: Endpoint): int {
    (e.addr - base - 1) % 0x1_0000_0000 * perAddr + (e.port - FIRST_PORT) % 0x1_0000
  }

  lemma WrapInverse(base: nat, q: nat)
    requires base < U32 && q < U32
    ensures ((base + q + 1) % 0x1_0000_0000 - base - 1) % 0x1_0000_0000 == q
  {
  }

  lemma SmallMod(x: nat, w: nat)
    requires x < w
    ensures x % w == x && (x + w) % w == x && (x - w) % w == x
  {
  }

  /** Every index can be recovered from its endpoint. */
  lemma EndpointInverse(base: nat, perAddr: nat, index: nat)
    requires base < U32 && 0 < perAddr < U16 && index < U32
    ensures IndexOf(base, perAddr, LocalEndpoint(base, perAddr, index)) == index
  {
    Recompose(index, perAddr);
    WrapInverse(base, index / perAddr);
  }

  /** Two indices share an endpoint only if they are the same index. */
  lemma EndpointInjective(base: nat, perAddr: nat, i: nat, j: nat)
    requires base < U32 && 0 < perAddr < U16 && i < U32 && j < U32
    ensures LocalEndpoint(base, perAddr, i) == LocalEndpoint(base, perAddr, j) <==> i == j
  {
    EndpointInverse(base, perAddr, i);
    EndpointInverse(base, perAddr, j);
  }

  /** The base address is handed out only for the very last index with one connection per address. */
  lemma BaseAddressReserved(base: nat, perAddr: nat, index: nat)
    requires base < U32 && 0 < perAddr < U16 && index < U32
    ensures LocalEndpoint(base, perAddr, index).addr == base <==> perAddr == 1 && index == U32 - 1
  {
  }

  /** Base 10.0.0.1, 100 connections on an address: connection 10 is 10.0.0.2:49162, connection 100 is 10.0.0.3:49152. */
  lemma DocumentedExample()
    ensures LocalEndpoint(0x0a00_0001, 100, 10) == Endpoint(0x0a00_0002, 49162)
    ensures LocalEndpoint(0x0a00_0001, 100, 100) == Endpoint(0x0a00_0003, 49152)
  {
  }

  /** Ports stay in the dynamic range exactly while the offset in the group fits it. */
  lemma PortInDynamicRange(base: nat, perAddr: nat, index: nat)
    requires perAddr > 0 && perAddr < U16
    ensures FIRST_PORT <= LocalEndpoint(base, perAddr, index).port < U16
            <==> index % perAddr < DYNAMIC_PORTS
  {
  }

  /** Port zero, which smoltcp refuses to connect from, appears exactly past the end of the dynamic range. */
  lemma PortZero(base: nat, perAddr: nat, index: nat)
    requires 0 < perAddr < U16
    ensures LocalEndpoint(base, perAddr, index).port == 0 <==> index % perAddr == DYNAMIC_PORTS
  {
  }

  /** All indices below n fit exactly when the last address fits and no group outgrows the port range. */
  lemma AllFit(base: nat, perAddr: nat, n: nat)
    requires base < U32 && 0 < perAddr && 0 < n
    ensures (forall i: nat :: i < n ==> Fits(base, perAddr, i))
            <==> base + (n - 1) / perAddr + 1 < U32 && (n <= DYNAMIC_PORTS || perAddr <= DYNAMIC_PORTS)
  {
    if base + (n - 1) / perAddr + 1 < U32 && (n <= DYNAMIC_PORTS || perAddr <= DYNAMIC_PORTS) {
      forall i: nat | i < n
        ensures Fits(base, perAddr, i)
      {
        Recompose(i, perAddr);
        DivMonotone(i, n - 1, perAddr);
        assert i % perAddr <= i by { assert i / perAddr * perAddr >= 0; }
      }
    } else if base + (n - 1) / perAddr + 1 >= U32 {
      assert !Fits(base, perAddr, n - 1);
    } else {
      Recompose(DYNAMIC_PORTS, perAddr);
      assert DYNAMIC_PORTS % perAddr == DYNAMIC_PORTS by { SmallMod(DYNAMIC_PORTS, perAddr); }
      assert !Fits(base, perAddr, DYNAMIC_PORTS);
    }
  }

  /** How many addresses n consecutive connections need. */
  function Groups(n: nat, perAddr: nat): nat
    requires perAddr > 0
  {
    (n + perAddr - 1) / perAddr
  }

  /** How many of n connections land on the g-th address: all groups but the last are full. */
  function GroupSize(n: nat, perAddr: nat, g: nat): int {
    if n - g * perAddr < perAddr then n - g * perAddr else perAddr
  }

  /**
   The first n connections occupy Groups(n) consecutive addresses right after the
   base address, and on each of them a contiguous run of ports from FIRST_PORT.
   */
  lemma ConsecutiveBlocks(base: nat, perAddr: nat, n: nat, e: Endpoint)
    requires base < U32 && 0 < perAddr <= DYNAMIC_PORTS && 0 < n
    requires base + (n - 1) / perAddr + 1 < U32
    ensures (exists i: nat :: i < n && LocalEndpoint(base, perAddr, i) == e)
            <==> && base < e.addr <= base + Groups(n, perAddr)
                 && FIRST_PORT <= e.port < FIRST_PORT + GroupSize(n, perAddr, e.addr - base - 1)
  {
    GroupCount(n, perAddr);
    if i: nat :| i < n && LocalEndpoint(base, perAddr, i) == e {
      EndpointInBlock(base, perAddr, n, i);
    }
    if base < e.addr <= base + Groups(n, perAddr)
       && FIRST_PORT <= e.port < FIRST_PORT + GroupSize(n, perAddr, e.addr - base - 1) {
      BlockIsUsed(base, perAddr, n, e);
    }
  }

  /** Which address after the base address, and which port after the first one, both counted with wrap-around. */
  function AddrOffset(base: nat, e: Endpoint): (g: nat)
    ensures g < U32
  {
    (e.addr - base - 1) % 0x1_0000_0000
  }

  function PortOffset(e: Endpoint): (o: nat)
    ensures o < U16
  {
    (e.port - FIRST_PORT) % 0x1_0000
  }

  lemma Offsets(base: nat, perAddr: nat, index: nat)
    requires base < U32 && 0 < perAddr < U16 && index < U32
    ensures var e := LocalEndpoint(base, perAddr, index);
            AddrOffset(base, e) == index / perAddr && PortOffset(e) == index % perAddr
  {
    Recompose(index, perAddr);
    WrapInverse(base, index / perAddr);
  }

  lemma OffsetsInverse(base: nat, e: Endpoint)
    requires base < U32 && e.addr < U32 && e.port < U16
    ensures (base + AddrOffset(base, e) + 1) % 0x1_0000_0000 == e.addr
    ensures (FIRST_PORT + PortOffset(e)) % 0x1_0000 == e.port
  {
  }

  /**
   For every group size and any number of 32-bit indices, overflow or not: the first n
   connections use exactly the first Groups(n) addresses after the base address, and
   on each of them exactly the first ports of its group, both counted with wrap-around.
   */
  lemma BlocksModulo(base: nat, perAddr: nat, n: nat, e: Endpoint)
    requires base < U32 && 0 < perAddr < U16 && 0 < n <= U32
    ensures (exists i: nat :: i < n && LocalEndpoint(base, perAddr, i) == e)
            <==> && e.addr < U32 && e.port < U16
                 && AddrOffset(base, e) < Groups(n, perAddr)
                 && PortOffset(e) < GroupSize(n, perAddr, AddrOffset(base, e))
  {
    GroupCount(n, perAddr);
    if i: nat :| i < n && LocalEndpoint(base, perAddr, i) == e {
      Offsets(base, perAddr, i);
      DivMonotone(i, n - 1, perAddr);
      Recompose(i, perAddr);
    }
    if e.addr < U32 && e.port < U16 && AddrOffset(base, e) < Groups(n, perAddr)
       && PortOffset(e) < GroupSize(n, perAddr, AddrOffset(base, e)) {
      OffsetsUsed(base, perAddr, n, e);
    }
  }

  lemma OffsetsUsed(base: nat, perAddr: nat, n: nat, e: Endpoint)
    requires base < U32 && 0 < perAddr < U16 && e.addr < U32 && e.port < U16
    requires PortOffset(e) < GroupSize(n, perAddr, AddrOffset(base, e))
    ensures exists i: nat :: i < n && LocalEndpoint(base, perAddr, i) == e
  {
    var g, o := AddrOffset(base, e), PortOffset(e);
    OffsetsInverse(base, e);
    hide AddrOffset, PortOffset;
    UniqueQuotient(g, o, perAddr);
    MulMonotone(0, g, perAddr);
    var i: nat := g * perAddr + o;
    assert LocalEndpoint(base, perAddr, i) == e;
  }

  lemma EndpointInBlock(base: nat, perAddr: nat, n: nat, i: nat)
    requires base < U32 && 0 < perAddr <= DYNAMIC_PORTS && i < n
    requires base + (n - 1) / perAddr + 1 < U32
    ensures var e := LocalEndpoint(base, perAddr, i);
            && base < e.addr <= base + (n - 1) / perAddr + 1
            && FIRST_PORT <= e.port < FIRST_PORT + GroupSize(n, perAddr, e.addr - base - 1)
  {
    AllFit(base, perAddr, n);
    assert Fits(base, perAddr, i);
    DivMonotone(i, n - 1, perAddr);
    Recompose(i, perAddr);
    assert LocalEndpoint(base, perAddr, i) == Endpoint(base + i / perAddr + 1, FIRST_PORT + i % perAddr);
  }

  lemma BlockIsUsed(base: nat, perAddr: nat, n: nat, e: Endpoint)
    requires base < U32 && 0 < perAddr <= DYNAMIC_PORTS && 0 < n
    requires base + (n - 1) / perAddr + 1 < U32
    requires base < e.addr <= base + (n - 1) / perAddr + 1
    requires FIRST_PORT <= e.port < FIRST_PORT + GroupSize(n, perAddr, e.addr - base - 1)
    ensures exists i: nat :: i < n && LocalEndpoint(base, perAddr, i) == e
  {
    var q, r := e.addr - base - 1, e.port - FIRST_PORT;
    assert q * perAddr >= 0;
    var i := q * perAddr + r;
    UniqueQuotient(q, r, perAddr);
    AllFit(base, perAddr, n);
    assert Fits(base, perAddr, i);
    assert LocalEndpoint(base, perAddr, i) == e;
  }

  lemma GroupCount(n: nat, d: nat)
    requires d > 0 && n > 0
    ensures Groups(n, d) == (n - 1) / d + 1
  {
    Recompose(n - 1, d);
    UniqueQuotient((n - 1) / d + 1, (n - 1) % d, d);
    assert ((n - 1) / d + 1) * d + (n - 1) % d == n - 1 + d;
  }
}
