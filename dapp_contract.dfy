/**
 The dapp's `Contract` wrapper (src/dapp/contract.js): once the node's accounts
 are known, `initialize` takes the first as the owner and tops the airline and
 passenger lists up to five accounts each, drawing the accounts in order with
 one counter. The wrappers around contract calls are modelled by the request
 they send and what they hand to their callback.

 A JavaScript array read past its end yields `undefined` and a `push` of it
 still grows the list, so the lists hold `Option<Address>` and `None` is an
 account position that did not exist.
 */
module DappContract {
  import opened Common

  /** The number of airline accounts, and of passenger accounts, `initialize` keeps. */
  const ListSize: nat := 5

  /** The ether amount `setAirlineFund` always sends. */
  const AirlineFundEther: nat := 10

  /** How many pushes a `while (list.length < 5)` loop makes on a list of length `len`. */
  function TopUp(len: nat): (pushes: nat)
    ensures len + pushes == if len < ListSize then ListSize else len
  {
    if len < ListSize then ListSize - len else 0
  }

  /** The account positions `from`, `from + 1`, ..., `from + n - 1`. */
  function Range(from: nat, n: nat): (r: seq<nat>)
  {
    seq(n, k => from + k)
  }

  /** The values read from `accts` at the given positions. */
  function Read(accts: seq<Address>, positions: seq<nat>): (r: seq<Option<Address>>)
  {
    seq(|positions|, k requires 0 <= k < |positions| => At(accts, positions[k]))
  }

  /** Positions of `accts` the airline loop reads, given how many airlines there were before. */
  function AirlinePositions(airlines0: nat): seq<nat>
  {
    Range(1, TopUp(airlines0))
  }

  /** Positions the passenger loop reads: it continues where the airline loop's counter stopped. */
  function PassengerPositions(airlines0: nat, passengers0: nat): seq<nat>
  {
    Range(1 + TopUp(airlines0), TopUp(passengers0))
  }

  /**
   No account position is used twice: the owner's position 0, then the airline
   positions, then the passenger positions, strictly increasing.
   */
  lemma PositionsStrictlyIncreasing(airlines0: nat, passengers0: nat)
    ensures var all := [0] + AirlinePositions(airlines0) + PassengerPositions(airlines0, passengers0);
            forall i, j :: 0 <= i < j < |all| ==> all[i] < all[j]
  {
  }

  /** Starting from the empty lists the constructor leaves, airlines are `accts[1..6]` and passengers `accts[6..11]`. */
  lemma FromEmptyLists(accts: seq<Address>)
    ensures AirlinePositions(0) == [1, 2, 3, 4, 5]
    ensures PassengerPositions(0, 0) == [6, 7, 8, 9, 10]
    ensures 1 + TopUp(0) + TopUp(0) == 11
    ensures |accts| >= 11 ==>
              Read(accts, AirlinePositions(0)) == [Some(accts[1]), Some(accts[2]), Some(accts[3]), Some(accts[4]), Some(accts[5])] &&
              Read(accts, PassengerPositions(0, 0)) == [Some(accts[6]), Some(accts[7]), Some(accts[8]), Some(accts[9]), Some(accts[10])]
  {
  }

  /** What `fetchFlightStatus` builds and hands back to its caller's callback. */
  datatype Payload = Payload(airline: Option<Address>, flight: string, timestamp: int)

  /** The `fetchFlightStatus(airline, flight, timestamp)` transaction, sent `from` the owner. */
  datatype FetchRequest = FetchRequest(airline: Option<Address>, flight: string, timestamp: int, from: Option<Address>)

  /** The request sent, and the two arguments the caller's callback receives. */
  datatype FetchOutcome = FetchOutcome(request: FetchRequest, callbackError: Option<string>, callbackPayload: Payload)

  /** The `setAirlineFund(airline)` transaction: sent `from` the owner, carrying `valueEther` ether. */
  datatype FundRequest = FundRequest(airline: Address, from: Option<Address>, valueEther: nat)

  class Contract {
    var owner: Option<Address>
    var airlines: seq<Option<Address>>
    var passengers: seq<Option<Address>>

    /** The fields as the constructor leaves them: `null` owner and empty lists. */
    constructor ()
      ensures owner == None && airlines == [] && passengers == []
    {
      owner := None;
      airlines := [];
      passengers := [];
    }

    /**
     The `getAccounts` callback of `initialize`, given the accounts it receives
     (`None` when the node answered with an error and no list; the error itself
     is ignored). Without a list, `accts[0]` throws: no field changes and the
     caller's `callback()` is never called. Otherwise `ready` says that
     `callback()` runs, and `counter` is the position of the next account the
     loops would have read.
     */
    method Initialize(accounts: Option<seq<Address>>) returns (counter: nat, ready: bool)
      modifies this
      ensures ready == accounts.Some?
      ensures accounts.None? ==>
                owner == old(owner) && airlines == old(airlines) && passengers == old(passengers) && counter == 0
      ensures accounts.Some? ==> owner == At(accounts.value, 0)
      ensures accounts.Some? ==> airlines == old(airlines) + Read(accounts.value, AirlinePositions(|old(airlines)|))
      ensures accounts.Some? ==>
                passengers == old(passengers) + Read(accounts.value, PassengerPositions(|old(airlines)|, |old(passengers)|))
      ensures accounts.Some? ==> counter == 1 + TopUp(|old(airlines)|) + TopUp(|old(passengers)|)
      ensures |airlines| == if accounts.Some? && |old(airlines)| < ListSize then ListSize else |old(airlines)|
      ensures |passengers| == if accounts.Some? && |old(passengers)| < ListSize then ListSize else |old(passengers)|
    {
      if accounts.None? {
        // Reading `accts[0]` of an undefined list throws a TypeError.
        return 0, false;
      }
      var accts := accounts.value;
      owner := At(accts, 0);
      counter := 1;
      ghost var airlines0, passengers0 := airlines, passengers;
      while |airlines| < ListSize
        invariant 1 <= counter <= 1 + TopUp(|airlines0|)
        invariant airlines == airlines0 + Read(accts, Range(1, counter - 1))
        invariant counter < 1 + TopUp(|airlines0|) ==> |airlines| < ListSize
        invariant passengers == passengers0
        invariant owner == At(accts, 0)
      {
        airlines := airlines + [At(accts, counter)];
        counter := counter + 1;
        assert Read(accts, Range(1, counter - 1)) == Read(accts, Range(1, counter - 2)) + [At(accts, counter - 1)];
      }
      ghost var start := counter;
      while |passengers| < ListSize
        invariant start <= counter <= start + TopUp(|passengers0|)
        invariant passengers == passengers0 + Read(accts, Range(start, counter - start))
        invariant counter < start + TopUp(|passengers0|) ==> |passengers| < ListSize
        invariant start == 1 + TopUp(|airlines0|)
        invariant airlines == airlines0 + Read(accts, AirlinePositions(|airlines0|))
        invariant owner == At(accts, 0)
      {
        passengers := passengers + [At(accts, counter)];
        counter := counter + 1;
        assert Read(accts, Range(start, counter - start)) == Read(accts, Range(start, counter - 1 - start)) + [At(accts, counter - 1)];
      }
      ready := true;
    }

    /**
     `fetchFlightStatus(flight, callback)` at time `nowMs` (standing for
     `Date.now()`), where the transaction ends with `txError` and `txResult`:
     the request uses the first airline, the flight as given and the time in
     whole seconds, and the callback receives the same payload, not `txResult`.
     */
    function FetchFlightStatus(flight: string, nowMs: nat, txError: Option<string>, txResult: string): (r: FetchOutcome)
      reads this
      ensures r.callbackPayload.airline == (if |airlines| > 0 then airlines[0] else None)
      ensures r.callbackPayload.flight == flight
      ensures r.callbackPayload.timestamp * 1000 <= nowMs < (r.callbackPayload.timestamp + 1) * 1000
      ensures r.request == FetchRequest(r.callbackPayload.airline, r.callbackPayload.flight, r.callbackPayload.timestamp, owner)
      ensures r.callbackError == txError
    {
      var payload := Payload(if |airlines| > 0 then airlines[0] else None, flight, nowMs / 1000);
      FetchOutcome(FetchRequest(payload.airline, payload.flight, payload.timestamp, owner), txError, payload)
    }

    /** `setAirlineFund(airline, callback)`: the amount is fixed at 10 ether; the caller has no say in it. */
    function SetAirlineFund(airline: Address): (r: FundRequest)
      reads this
      ensures r.valueEther == AirlineFundEther == 10
      ensures r.airline == airline && r.from == owner
    {
      FundRequest(airline, owner, AirlineFundEther)
    }
  }
}
