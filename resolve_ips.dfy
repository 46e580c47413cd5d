/** resolve/ips.go: the address-family filter, with the `allow-ip4` and `allow-ip6` flags
    as parameters (both default to true). */
module ResolveIps {
  import opened NetIp

  const DefaultAllowIp4: bool := true
  const DefaultAllowIp6: bool := true

  function AllowedAddr(a: Addr, allowIp4: bool, allowIp6: bool): (allowed: bool)
    ensures !a.IsValid() ==> !allowed
    ensures a.Is4() ==> (allowed <==> allowIp4)
    ensures a.Is6() ==> (allowed <==> allowIp6)
    ensures a.Is4In6() ==> (allowed <==> allowIp6)
    ensures allowIp4 && allowIp6 ==> (allowed <==> a.IsValid())
  {
    (a.Is6() && allowIp6) || (a.Is4() && allowIp4)
  }

  /** With the flags at their defaults, exactly the valid addresses are allowed. */
  lemma DefaultsAllowEveryValidAddr(a: Addr)
    ensures AllowedAddr(a, DefaultAllowIp4, DefaultAllowIp6) <==> a.IsValid()
  {
  }
}
