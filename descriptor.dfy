/**
 * The descriptor walker of the ProtoPlasm USB device layer. A configuration
 * descriptor is a byte array of standard descriptors chained by their first
 * byte, bLength, with the descriptor type, bDescriptorType, in the second
 * (section 9.6 of the USB 2.0 specification). The walk visits offsets 0,
 * b[0], b[0] + b[b[0]], ... while the offset is below the configuration
 * size, which is a global of its own and not the length of the array.
 * `desc_getdescriptor` answers GET_DESCRIPTOR with the first descriptor of a
 * type; `desc_init` copies the fields of each endpoint descriptor
 * (section 9.6.6) into the endpoint table.
 */
module Descriptor {
  import opened Defines

  /** `USB_DESC_ENDPOINT`. */
  const DescEndpoint: u8 := 0x05
  /** `TOTAL_ENDPOINTS`: rows of the endpoint table. */
  const TotalEndpoints := 8
  /** `USB_DEVICE2HOST`, the direction bit of bEndpointAddress. */
  const Device2Host: u8 := 0x80

  /**
   * The walk from offset i is well defined: every visited descriptor has
   * its type byte inside the array and a non-zero bLength (a zero one
   * would repeat the same offset for ever).
   */
  ghost predicate ChainOk(c: seq<u8>, csize: nat, i: nat)
    decreases csize - i
  {
    i >= csize || (i + 1 < |c| && c[i] > 0 && ChainOk(c, csize, i + c[i]))
  }

  /**
   * The offsets the walk visits from i, in order: it starts at i and all
   * lie below the configuration size (WalkChained: each is the previous one
   * plus its bLength).
   */
  function Walk(c: seq<u8>, csize: nat, i: nat): (w: seq<nat>)
    requires ChainOk(c, csize, i)
    ensures i < csize ==> w != [] && w[0] == i
    ensures i >= csize ==> w == []
    ensures forall n :: 0 <= n < |w| ==> i <= w[n] < csize && w[n] + 1 < |c| && c[w[n]] > 0
    decreases csize - i
  {
    if i >= csize then [] else [i] + Walk(c, csize, i + c[i])
  }

  /** Each visited offset is the previous one plus the previous descriptor's bLength. */
  lemma {:induction false} WalkChained(c: seq<u8>, csize: nat, i: nat, n: nat)
    requires ChainOk(c, csize, i) && n + 1 < |Walk(c, csize, i)|
    ensures var w := Walk(c, csize, i); w[n + 1] == w[n] + c[w[n]]
    decreases csize - i
  {
    var w := Walk(c, csize, i);
    var w1 := Walk(c, csize, i + c[i]);
    assert w == [i] + w1;
    if n > 0 {
      WalkChained(c, csize, i + c[i], n - 1);
    }
  }

  /** The first visited offset whose bDescriptorType is `t`. */
  function Find(c: seq<u8>, csize: nat, t: u8, i: nat): (r: Option<nat>)
    requires ChainOk(c, csize, i)
    ensures r.Some? ==> i <= r.value < csize && r.value + 1 < |c| && c[r.value + 1] == t
    decreases csize - i
  {
    if i >= csize then None
    else if c[i + 1] == t then Some(i)
    else Find(c, csize, t, i + c[i])
  }

  /** The position in a list of offsets of the first descriptor of type `t`, or its length. */
  function FirstOfType(c: seq<u8>, t: u8, w: seq<nat>): (k: nat)
    requires forall n :: 0 <= n < |w| ==> w[n] + 1 < |c|
    ensures k <= |w| && (k < |w| ==> c[w[k] + 1] == t)
    ensures forall m :: 0 <= m < k ==> c[w[m] + 1] != t
  {
    if w == [] || c[w[0] + 1] == t then 0
    else
      var k := FirstOfType(c, t, w[1..]);
      assert forall m :: 1 <= m < k + 1 ==> w[m] == w[1..][m - 1];
      k + 1
  }

  /**
   * Find answers with the first descriptor of the type along the walk, and
   * with none exactly when no visited descriptor has the type.
   */
  lemma {:induction false} FindFirst(c: seq<u8>, csize: nat, t: u8, i: nat)
    requires ChainOk(c, csize, i)
    ensures var w := Walk(c, csize, i); var k := FirstOfType(c, t, w);
      Find(c, csize, t, i) == if k < |w| then Some(w[k]) else None
    decreases csize - i
  {
    if i < csize && c[i + 1] != t {
      var j := i + c[i];
      FindFirst(c, csize, t, j);
      var w1 := Walk(c, csize, j);
      assert Walk(c, csize, i) == [i] + w1;
      FirstOfTypeCons(c, t, i, w1);
    }
  }

  /** A first descriptor of another type moves the position of the first of type `t` by one. */
  lemma FirstOfTypeCons(c: seq<u8>, t: u8, i: nat, w: seq<nat>)
    requires i + 1 < |c| && c[i + 1] != t && forall n :: 0 <= n < |w| ==> w[n] + 1 < |c|
    ensures FirstOfType(c, t, [i] + w) == FirstOfType(c, t, w) + 1
  {
    assert ([i] + w)[1..] == w;
  }

  /**
   * `desc_getdescriptor`: the offset of the first descriptor of type `t`
   * with its bLength as the size, or no descriptor and size 0.
   */
  method GetDescriptor(configuration: seq<u8>, csize: u16, t: u8) returns (data: Option<nat>, size: u16)
    requires ChainOk(configuration, csize, 0)
    ensures data == Find(configuration, csize, t, 0)
    ensures data.Some? ==> data.value < |configuration| && size == configuration[data.value]
    ensures data.None? ==> size == 0
  {
    var i: nat := 0;
    while i < csize as nat
      invariant ChainOk(configuration, csize, i)
      invariant Find(configuration, csize, t, 0) == Find(configuration, csize, t, i)
      decreases csize as int - i
    {
      if configuration[i + 1] == t {
        data := Some(i);
        size := configuration[i];
        return;
      }
      i := i + configuration[i];
    }
    data := None;
    size := 0;
  }

  /** One slot of the endpoint table; whether it has a USB buffer stands for `usbbuffer != null`. */
  datatype Endpoint = Endpoint(packetsize: u16, attributes: u8, hasBuffer: bool)

  /** `configuration[i + 4] | configuration[i + 5] << 8`: a little-endian 16-bit field. */
  function LeWord(lo: u8, hi: u8): (r: u16)
    ensures r == BitOr(lo, hi * 0x100)
    ensures LoByte(r) == lo && HiByte(r) == hi
  {
    ByteOr(lo, hi);
    ByteSplit(lo, hi);
    lo + hi * 0x100
  }

  /** The slot `_usb_endpoints[address & 0x0F][IN or OUT]`, the row-major index of the 8 x 2 table. */
  function Slot(address: u8): (r: nat)
    ensures r < 32 && r / 2 == address % 0x10 && (r % 2 == 1 <==> address >= Device2Host)
  {
    (address % 0x10) * 2 + (if address >= Device2Host then 1 else 0)
  }

  /**
   * What desc_init needs besides a sound chain: every visited endpoint
   * descriptor has its bytes 2 to 5 inside the array and an endpoint
   * number below TOTAL_ENDPOINTS, so the table writes stay in bounds.
   */
  ghost predicate InitOk(c: seq<u8>, csize: nat, i: nat)
    decreases csize - i
  {
    i >= csize ||
    (i + 1 < |c| && c[i] > 0 &&
     (c[i + 1] == DescEndpoint ==> i + 5 < |c| && c[i + 2] % 0x10 < TotalEndpoints) &&
     InitOk(c, csize, i + c[i]))
  }

  lemma {:induction false} InitChain(c: seq<u8>, csize: nat, i: nat)
    requires InitOk(c, csize, i)
    ensures ChainOk(c, csize, i)
    decreases csize - i
  {
    if i < csize {
      InitChain(c, csize, i + c[i]);
    }
  }

  /** The endpoint descriptor at offset i, applied to its slot if that slot has a buffer. */
  function EndpointAt(c: seq<u8>, i: nat, e: Endpoint): Endpoint
    requires i + 5 < |c|
  {
    if e.hasBuffer then e.(packetsize := LeWord(c[i + 4], c[i + 5]), attributes := c[i + 3]) else e
  }

  /** The table after the descriptor at offset i. */
  function InitStep(c: seq<u8>, i: nat, table: seq<Endpoint>): (r: seq<Endpoint>)
    requires |table| == 2 * TotalEndpoints && i + 1 < |c|
    requires c[i + 1] == DescEndpoint ==> i + 5 < |c| && c[i + 2] % 0x10 < TotalEndpoints
    ensures |r| == |table|
  {
    if c[i + 1] == DescEndpoint then
      var s := Slot(c[i + 2]);
      table[s := EndpointAt(c, i, table[s])]
    else
      table
  }

  /** The table after the walk from i. */
  function InitWalk(c: seq<u8>, csize: nat, i: nat, table: seq<Endpoint>): (r: seq<Endpoint>)
    requires |table| == 2 * TotalEndpoints && InitOk(c, csize, i)
    ensures |r| == |table|
    decreases csize - i
  {
    if i >= csize then table else InitWalk(c, csize, i + c[i], InitStep(c, i, table))
  }

  /** The last visited endpoint descriptor that targets slot s. */
  function LastFor(c: seq<u8>, csize: nat, i: nat, s: nat): (r: Option<nat>)
    requires InitOk(c, csize, i)
    ensures r.Some? ==> i <= r.value && r.value + 5 < |c| && c[r.value + 1] == DescEndpoint && Slot(c[r.value + 2]) == s
    decreases csize - i
  {
    if i >= csize then None
    else match LastFor(c, csize, i + c[i], s)
      case Some(j) => Some(j)
      case None => if c[i + 1] == DescEndpoint && Slot(c[i + 2]) == s then Some(i) else None
  }

  /**
   * desc_init fills each slot from the last endpoint descriptor for it,
   * later ones overwriting earlier ones; a slot without a buffer, or that
   * no endpoint descriptor targets, keeps what it had. No slot gains or
   * loses its buffer.
   */
  lemma {:induction false} InitSlot(c: seq<u8>, csize: nat, i: nat, table: seq<Endpoint>, s: nat)
    requires |table| == 2 * TotalEndpoints && InitOk(c, csize, i) && s < |table|
    ensures var l := LastFor(c, csize, i, s);
      InitWalk(c, csize, i, table)[s] == if l.Some? then EndpointAt(c, l.value, table[s]) else table[s]
    decreases csize - i
  {
    if i < csize {
      var j := i + c[i];
      var t1 := InitStep(c, i, table);
      InitSlot(c, csize, j, t1, s);
      var l := LastFor(c, csize, j, s);
      if l.Some? {
        assert t1[s].hasBuffer == table[s].hasBuffer;
      }
    }
  }

  /** The buffer pointers are never written. */
  lemma {:induction false} InitKeepsBuffers(c: seq<u8>, csize: nat, i: nat, table: seq<Endpoint>)
    requires |table| == 2 * TotalEndpoints && InitOk(c, csize, i)
    ensures var r := InitWalk(c, csize, i, table);
      forall s :: 0 <= s < |table| ==> r[s].hasBuffer == table[s].hasBuffer
    decreases csize - i
  {
    if i < csize {
      InitKeepsBuffers(c, csize, i + c[i], InitStep(c, i, table));
    }
  }

  /**
   * `desc_init` over the configuration descriptor and the endpoint table
   * `_usb_endpoints`, both globals in the source; the table is stored
   * row-major, slot 2 * endpoint + direction.
   */
  method DescInit(configuration: seq<u8>, csize: u16, endpoints: array<Endpoint>)
    requires endpoints.Length == 2 * TotalEndpoints && InitOk(configuration, csize, 0)
    modifies endpoints
    ensures endpoints[..] == InitWalk(configuration, csize, 0, old(endpoints[..]))
  {
    var i: nat := 0;
    while i < csize as nat
      invariant InitOk(configuration, csize, i)
      invariant InitWalk(configuration, csize, 0, old(endpoints[..])) == InitWalk(configuration, csize, i, endpoints[..])
      decreases csize as int - i
    {
      ghost var before := endpoints[..];
      if configuration[i + 1] == DescEndpoint {
        var address := configuration[i + 2];
        var epnum := address % 0x10;
        if address >= Device2Host {
          if endpoints[epnum * 2 + 1].hasBuffer {
            endpoints[epnum * 2 + 1] := endpoints[epnum * 2 + 1].(
              packetsize := LeWord(configuration[i + 4], configuration[i + 5]),
              attributes := configuration[i + 3]);
          }
        } else {
          if endpoints[epnum * 2].hasBuffer {
            endpoints[epnum * 2] := endpoints[epnum * 2].(
              packetsize := LeWord(configuration[i + 4], configuration[i + 5]),
              attributes := configuration[i + 3]);
          }
        }
        assert endpoints[..] == InitStep(configuration, i, before);
      }
      i := i + configuration[i];
    }
  }
}
