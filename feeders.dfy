/**
 * The oracle's registry of price feeders: a set of addresses that only the
 * contract owner may change. Registering an address twice and removing an
 * unknown one are both refused.
 *
 * The validation of an address string and the storage errors are not part
 * of this model; an address is taken as already validated.
 */
module Feeders {
  import opened Wrappers

  type Addr = string

  datatype ContractError = Unauthorized | FeederAlreadyRegistered | UnknownFeeder

  class Feeders {
    /** The single user allowed to change the registry. */
    const owner: Addr
    var feeders: set<Addr>

    constructor (owner: Addr, feeders: set<Addr>)
      ensures this.owner == owner && this.feeders == feeders
    {
      this.owner := owner;
      this.feeders := feeders;
    }

    /** `is_feeder`: whether the address is registered. */
    predicate IsFeeder(address: Addr): (b: bool)
      reads this
      ensures b <==> address in feeders
      ensures b ==> |feeders| > 0
    {
      assert address in feeders ==> |feeders - {address}| < |feeders|;
      address in feeders
    }

    /** `total_registered`: the number of registered feeders. */
    function TotalRegistered(): (n: nat)
      reads this
      ensures n == |feeders|
      ensures n == 0 <==> feeders == {}
    {
      |feeders|
    }

    /**
     * `try_register`: only the owner may register; a new address is added,
     * an already registered one is refused and the registry stays as it was.
     */
    method TryRegister(sender: Addr, address: Addr) returns (r: Result<(), ContractError>)
      modifies this
      ensures sender != owner ==> r == Failure(Unauthorized)
      ensures sender == owner && address in old(feeders) ==> r == Failure(FeederAlreadyRegistered)
      ensures r.Success? <==> sender == owner && address !in old(feeders)
      ensures r.Success? ==> feeders == old(feeders) + {address} && TotalRegistered() == old(TotalRegistered()) + 1
      ensures r.Failure? ==> feeders == old(feeders)
    {
      if sender != owner {
        return Failure(Unauthorized);
      }
      if IsFeeder(address) {
        return Failure(FeederAlreadyRegistered);
      }
      feeders := feeders + {address};
      r := Success(());
    }

    /**
     * `try_remove`: only the owner may remove; an unknown address is refused,
     * a registered one is removed and every other feeder stays.
     */
    method TryRemove(sender: Addr, address: Addr) returns (r: Result<(), ContractError>)
      modifies this
      ensures sender != owner ==> r == Failure(Unauthorized)
      ensures sender == owner && address !in old(feeders) ==> r == Failure(UnknownFeeder)
      ensures r.Success? <==> sender == owner && address in old(feeders)
      ensures r.Success? ==> feeders == old(feeders) - {address} && TotalRegistered() == old(TotalRegistered()) - 1
      ensures r.Failure? ==> feeders == old(feeders)
    {
      if sender != owner {
        return Failure(Unauthorized);
      }
      if !IsFeeder(address) {
        return Failure(UnknownFeeder);
      }
      feeders := feeders - {address};
      r := Success(());
    }
  }

  /**
   * Registering: starting from one registered feeder, two new addresses bring
   * the total to three, and repeating one of them is refused.
   */
  method RegisterScenario(owner: Addr, first: Addr) returns (total: nat, repeated: bool, registered: set<Addr>)
    requires first != "addr0000" && first != "addr0001"
    ensures total == 3 && !repeated
    ensures registered == {first, "addr0000", "addr0001"}
  {
    assert "addr0000" != "addr0001";
    var registry := new Feeders(owner, {first});
    var r := registry.TryRegister(owner, "addr0000");
    var again := registry.TryRegister(owner, "addr0000");
    repeated := again.Success?;
    r := registry.TryRegister(owner, "addr0001");
    total := registry.TotalRegistered();
    registered := registry.feeders;
  }

  /** Removing two of five registered feeders leaves the other three. */
  method RemoveScenario(owner: Addr, registered: set<Addr>) returns (total: nat, remaining: set<Addr>)
    requires |registered| == 5 && "addr0000" in registered && "addr0001" in registered
    ensures total == 3
    ensures remaining == registered - {"addr0000", "addr0001"}
  {
    assert "addr0000" != "addr0001";
    var registry := new Feeders(owner, registered);
    var r := registry.TryRemove(owner, "addr0000");
    r := registry.TryRemove(owner, "addr0001");
    total := registry.TotalRegistered();
    remaining := registry.feeders;
  }

  /** A user other than the owner changes nothing. */
  method UnauthorizedScenario(owner: Addr, first: Addr, user: Addr, address: Addr)
    returns (r: Result<(), ContractError>, total: nat)
    requires user != owner
    ensures r == Failure(Unauthorized)
    ensures total == 1
  {
    var registry := new Feeders(owner, {first});
    r := registry.TryRegister(user, address);
    total := registry.TotalRegistered();
  }
}
