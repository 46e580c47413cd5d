/** A model of Go's `net/netip.Addr`: the zero (invalid) address, an IPv4 address or an IPv6
    address with an optional zone. Only the predicates and conversions the core uses are here. */
module NetIp {

  const V4Span: int := 0x1_0000_0000
  const V6Span: int := 0x1_0000_0000_0000_0000_0000_0000_0000_0000

  type U32 = x: int | 0 <= x < V4Span
  type U128 = x: int | 0 <= x < V6Span

  /** The top 96 bits of an IPv4-mapped IPv6 address are `::ffff`. */
  const MappedPrefix: int := 0xffff

  datatype Addr = Invalid | V4(v4: U32) | V6(v6: U128, zone: string) {

    predicate IsValid() { !Invalid? }

    predicate Is4() { V4? }

    predicate Is6() { V6? }

    /** An IPv6 address of the form ::ffff:a.b.c.d (the zone does not matter). */
    predicate Is4In6() { V6? && v6 / V4Span == MappedPrefix }

    /** The IPv4 address inside an IPv4-mapped IPv6 address; every other address unchanged. */
    function Unmap(): (r: Addr)
      ensures !r.Is4In6()
      ensures r.IsValid() == IsValid()
      ensures r.Is4() <==> Is4() || Is4In6()
      ensures !Is4In6() ==> r == this
      ensures Is4In6() ==> r == V4(v6 % V4Span)
    {
      if Is4In6() then V4(v6 % V4Span) else this
    }
  }

  /** 0.0.0.0 */
  const IPv4Unspecified: Addr := V4(0)
  /** :: */
  const IPv6Unspecified: Addr := V6(0, "")

  lemma UnmapIdempotent(a: Addr)
    ensures a.Unmap().Unmap() == a.Unmap()
  {
  }
}
