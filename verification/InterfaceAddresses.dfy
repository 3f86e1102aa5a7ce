/** The search for unused carrier-grade NAT addresses. */
module InterfaceAddresses {
  import opened Wrappers
  import opened Text

  /** `Address::ip`. */
  function Ip(address: Address): seq<byte> { FormatHost(address.a, address.b, address.c, address.d) }

  /** `Address::cgnat`, whose parameter is 8 bits wide. */
  function Cgnat(lastOctet: nat): Address { Address(100, 64, 0, lastOctet % 256, 0) }

  /** No address in the list has the last octet `octet` under 100.64.0. */
  predicate Free(inUse: seq<Address>, octet: nat) {
    forall x <- inUse :: !(x.a == 100 && x.b == 64 && x.c == 0 && x.d == octet)
  }

  lemma IpIsInjective(x: Address, y: Address)
    ensures Ip(x) == Ip(y) <==> x.(port := 0) == y.(port := 0)
  {
    HostRoundTrip(x.a, x.b, x.c, x.d, 0);
    HostRoundTrip(y.a, y.b, y.c, y.d, 0);
  }

  class Interfaces {
    var addressesInUse: seq<Address>

    /** `found` is what the system reports. */
    constructor (found: seq<Address>)
      ensures addressesInUse == found
    {
      addressesInUse := found;
    }

    method AddAddress(address: Address)
      modifies this
      ensures addressesInUse == old(addressesInUse) + [address]
    {
      addressesInUse := addressesInUse + [address];
    }

    /** Addresses are compared by their text. */
    method AddressInUse(address: Address) returns (r: bool)
      ensures r <==> exists x <- addressesInUse :: x.(port := 0) == address.(port := 0)
    {
      for i := 0 to |addressesInUse|
        invariant forall j | 0 <= j < i :: addressesInUse[j].(port := 0) != address.(port := 0)
      {
        IpIsInjective(address, addressesInUse[i]);
        if Ip(address) == Ip(addressesInUse[i]) {
          return true;
        }
      }
      return false;
    }

    /** The lowest free octet from `start` up to 255, with its address; None is the exception. */
    method FirstUnassignedAddress(start: nat) returns (r: Option<(Address, nat)>)
      requires start < PORT_SPACE
      ensures r.Some? ==>
                && var (address, octet) := r.value;
                && start <= octet <= 255 && address == Address(100, 64, 0, octet, 0)
                && Free(addressesInUse, octet) && forall o | start <= o < octet :: !Free(addressesInUse, o)
      ensures r.None? <==> forall o | start <= o <= 255 :: !Free(addressesInUse, o)
    {
      var lastOctet := start;
      while lastOctet <= 255
        invariant start <= lastOctet && (start <= 255 ==> lastOctet <= 256)
        invariant forall o | start <= o < lastOctet && o <= 255 :: !Free(addressesInUse, o)
      {
        var candidate := Cgnat(lastOctet);
        var used := AddressInUse(candidate);
        if !used {
          return Some((candidate, lastOctet));
        }
        lastOctet := (lastOctet + 1) % PORT_SPACE;
      }
      return None;
    }
  }

  /** Two addresses that nothing uses and that differ from `avoid`: those of the two lowest free
      octets from 1 up. It fails exactly when there are not two free octets up to 255. */
  method TwoUnassignedAddresses(found: seq<Address>, avoid: Address) returns (r: Option<(Address, Address)>)
    ensures var inUse := found + [avoid];
            && (r.Some? ==>
                  && var (one, two) := r.value;
                  && one == Address(100, 64, 0, one.d, 0) && two == Address(100, 64, 0, two.d, 0)
                  && 1 <= one.d < two.d && Free(inUse, one.d) && Free(inUse, two.d)
                  && forall o | 1 <= o < two.d && Free(inUse, o) :: o == one.d)
            && (r.None? <==> !exists i, j | 1 <= i < j <= 255 :: Free(inUse, i) && Free(inUse, j))
  {
    var interfaces := new Interfaces(found);
    interfaces.AddAddress(avoid);
    var one := interfaces.FirstUnassignedAddress(1);
    if one.None? {
      return None;
    }
    var two := interfaces.FirstUnassignedAddress(one.value.1 + 1);
    if two.None? {
      return None;
    }
    return Some((one.value.0, two.value.0));
  }
}
