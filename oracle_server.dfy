/**
 The oracle server (src/server/server.js): a registry of oracle accounts and
 their three assigned indexes, and the handler that answers an `OracleRequest`
 event by picking every oracle that holds the event's index, choosing one status
 code for the flight, and issuing one `submitOracleResponse` per picked oracle.

 The registry is the module-level JavaScript `Map` from account to indexes. A
 `Map` iterates in insertion order, and `set` on a key that is already present
 replaces its value in place, so it is modelled as a sequence of
 (account, indexes) pairs with distinct accounts.
 */
module OracleServer {
  import opened Common

  /** The table of flight status codes the server chooses from. */
  const Status: seq<int> := [0, 10, 20, 30, 40, 50]

  /** Gas limit attached to every `submitOracleResponse` transaction. */
  const SubmitGas: nat := 500000

  /** One registry entry: an oracle account and the indexes it was assigned. */
  type Entry = (Address, seq<int>)

  /** The fields of an `OracleRequest` event the handler reads. */
  datatype OracleRequest = OracleRequest(index: int, airline: Address, flight: string, timestamp: int)

  /** One `submitOracleResponse(index, airline, flight, timestamp, code)` transaction, sent `from` an oracle. */
  datatype Submission = Submission(
    index: int, airline: Address, flight: string, timestamp: int, statusCode: int,
    from: Address, gas: nat)

  /** Every account appears at most once, as in a `Map`. */
  ghost predicate DistinctKeys(e: seq<Entry>)
  {
    forall i, j :: 0 <= i < j < |e| ==> e[i].0 != e[j].0
  }

  // ---------------------------------------------------------------------------
  // The registry as a Map: get and set
  // ---------------------------------------------------------------------------

  /** `oracles.get(account)`. */
  function Lookup(e: seq<Entry>, account: Address): Option<seq<int>>
  {
    if e == [] then None
    else if e[0].0 == account then Some(e[0].1)
    else Lookup(e[1..], account)
  }

  /** `oracles.set(account, indexes)`: replace the value of a present key where it stands, or append a new key. */
  function Put(e: seq<Entry>, account: Address, indexes: seq<int>): seq<Entry>
  {
    if e == [] then [(account, indexes)]
    else if e[0].0 == account then [(account, indexes)] + e[1..]
    else [e[0]] + Put(e[1..], account, indexes)
  }

  /** The result of a sequence of `set` calls, applied in the given order. */
  function PutAll(e: seq<Entry>, updates: seq<Entry>): seq<Entry>
  {
    if updates == [] then e
    else Put(PutAll(e, updates[..|updates| - 1]), updates[|updates| - 1].0, updates[|updates| - 1].1)
  }

  lemma {:induction false} LookupAbsent(e: seq<Entry>, account: Address)
    requires forall i :: 0 <= i < |e| ==> e[i].0 != account
    ensures Lookup(e, account) == None
  {
    if e != [] {
      LookupAbsent(e[1..], account);
    }
  }

  lemma {:induction false} LookupAt(e: seq<Entry>, i: nat)
    requires DistinctKeys(e) && i < |e|
    ensures Lookup(e, e[i].0) == Some(e[i].1)
  {
    if i > 0 {
      LookupAt(e[1..], i - 1);
    }
  }

  /** After a `set`, the key reads back the new value and every other key reads as before. */
  lemma {:induction false} PutLookup(e: seq<Entry>, account: Address, indexes: seq<int>, other: Address)
    ensures Lookup(Put(e, account, indexes), account) == Some(indexes)
    ensures other != account ==> Lookup(Put(e, account, indexes), other) == Lookup(e, other)
  {
    if e != [] && e[0].0 != account {
      PutLookup(e[1..], account, indexes, other);
    }
  }

  /** A `set` on a key that is present keeps the key's position and changes nothing else. */
  lemma {:induction false} PutExisting(e: seq<Entry>, account: Address, indexes: seq<int>, i: nat)
    requires DistinctKeys(e) && i < |e| && e[i].0 == account
    ensures Put(e, account, indexes) == e[i := (account, indexes)]
  {
    if i > 0 {
      PutExisting(e[1..], account, indexes, i - 1);
    }
  }

  /** A `set` on a new key appends it after all the keys already present. */
  lemma {:induction false} PutNew(e: seq<Entry>, account: Address, indexes: seq<int>)
    requires forall i :: 0 <= i < |e| ==> e[i].0 != account
    ensures Put(e, account, indexes) == e + [(account, indexes)]
  {
    if e != [] {
      PutNew(e[1..], account, indexes);
    }
  }

  /** A `set` never creates a second entry for a key. */
  lemma PutDistinct(e: seq<Entry>, account: Address, indexes: seq<int>)
    requires DistinctKeys(e)
    ensures DistinctKeys(Put(e, account, indexes))
  {
    if i :| 0 <= i < |e| && e[i].0 == account {
      PutExisting(e, account, indexes, i);
    } else {
      PutNew(e, account, indexes);
    }
  }

  // ---------------------------------------------------------------------------
  // Matching an event's index against the registry
  // ---------------------------------------------------------------------------

  /** The oracle `account` once per slot of `slots` equal to `index`, in slot order. */
  function SlotMatches(account: Address, slots: seq<int>, index: int): seq<Address>
  {
    if slots == [] then []
    else (if slots[0] == index then [account] else []) + SlotMatches(account, slots[1..], index)
  }

  /** The approved oracles for `index`: entry by entry in registry order, slot by slot within an entry. */
  function Matches(e: seq<Entry>, index: int): seq<Address>
  {
    if e == [] then [] else SlotMatches(e[0].0, e[0].1, index) + Matches(e[1..], index)
  }

  lemma {:induction false} SlotMatchesAppend(account: Address, s1: seq<int>, s2: seq<int>, index: int)
    ensures SlotMatches(account, s1 + s2, index) == SlotMatches(account, s1, index) + SlotMatches(account, s2, index)
  {
    if s1 != [] {
      assert (s1 + s2)[1..] == s1[1..] + s2;
      SlotMatchesAppend(account, s1[1..], s2, index);
    } else {
      assert s1 + s2 == s2;
    }
  }

  /** One oracle is approved once for every one of its slots equal to the index; duplicates are kept. */
  lemma {:induction false} SlotMatchesCount(account: Address, slots: seq<int>, index: int)
    ensures SlotMatches(account, slots, index) == seq(multiset(slots)[index], _ => account)
  {
    if slots != [] {
      SlotMatchesCount(account, slots[1..], index);
      assert slots == [slots[0]] + slots[1..];
      assert multiset(slots) == multiset{slots[0]} + multiset(slots[1..]);
    }
  }

  /** Order: the approvals of earlier registry entries all come before those of later ones. */
  lemma {:induction false} MatchesAppend(e1: seq<Entry>, e2: seq<Entry>, index: int)
    ensures Matches(e1 + e2, index) == Matches(e1, index) + Matches(e2, index)
  {
    if e1 != [] {
      assert (e1 + e2)[1..] == e1[1..] + e2;
      MatchesAppend(e1[1..], e2, index);
    } else {
      assert e1 + e2 == e2;
    }
  }

  /** Soundness and completeness: an account is approved iff one of its entries holds the index. */
  lemma {:induction false} MatchesMembership(e: seq<Entry>, index: int, account: Address)
    ensures account in Matches(e, index) <==> exists i :: 0 <= i < |e| && e[i].0 == account && index in e[i].1
  {
    if e != [] {
      MatchesMembership(e[1..], index, account);
      SlotMatchesCount(e[0].0, e[0].1, index);
      var head := SlotMatches(e[0].0, e[0].1, index);
      assert account in head <==> e[0].0 == account && index in e[0].1 by {
        if account in head {
          assert head[0] == e[0].0;
        }
        if e[0].0 == account && index in e[0].1 {
          assert multiset(e[0].1)[index] > 0;
          assert head[0] == account;
        }
      }
      if account in Matches(e[1..], index) {
        var i :| 0 <= i < |e[1..]| && e[1..][i].0 == account && index in e[1..][i].1;
        assert e[i + 1] == e[1..][i];
      }
      if i :| 0 <= i < |e| && e[i].0 == account && index in e[i].1 {
        if i > 0 {
          assert e[1..][i - 1] == e[i];
        }
      }
    }
  }

  /** No oracle holds the index (the registry may be empty): nothing is approved. */
  lemma NoMatchesWhenNoHolder(e: seq<Entry>, index: int)
    requires forall i :: 0 <= i < |e| ==> index !in e[i].1
    ensures Matches(e, index) == []
  {
    if Matches(e, index) != [] {
      MatchesMembership(e, index, Matches(e, index)[0]);
    }
  }

  /** Multiplicity: a registered oracle is approved as often as the index occurs among its slots; others never. */
  lemma {:induction false} MatchesMultiplicity(e: seq<Entry>, index: int, account: Address)
    requires DistinctKeys(e)
    ensures multiset(Matches(e, index))[account] ==
              match Lookup(e, account)
              case None => 0
              case Some(slots) => multiset(slots)[index]
  {
    if e != [] {
      MatchesMultiplicity(e[1..], index, account);
      SlotMatchesCount(e[0].0, e[0].1, index);
      var head := SlotMatches(e[0].0, e[0].1, index);
      assert multiset(Matches(e, index)) == multiset(head) + multiset(Matches(e[1..], index));
      if e[0].0 == account {
        LookupAbsent(e[1..], account);
        CountOfRepeat(account, multiset(e[0].1)[index]);
      } else {
        assert account !in head;
      }
    }
  }

  lemma {:induction false} CountOfRepeat(account: Address, n: nat)
    ensures multiset(seq(n, _ => account))[account] == n
  {
    if n > 0 {
      var s := seq(n, _ => account);
      CountOfRepeat(account, n - 1);
      assert s == seq(n - 1, _ => account) + [account];
    }
  }

  // ---------------------------------------------------------------------------
  // The status code chosen for an event
  // ---------------------------------------------------------------------------

  /**
   The code every oracle submits for an event: the table's third entry (20,
   late because of the airline) when the scheduled time `timestamp * 1000`
   lies strictly before now, otherwise its first entry (0, unknown).
   */
  function ChooseStatus(timestamp: int, nowMs: int): (code: int)
    ensures code in Status
    ensures code == Status[2] <==> timestamp * 1000 < nowMs
    ensures code == Status[0] <==> nowMs <= timestamp * 1000
    ensures code != 10 && code != 30 && code != 40 && code != 50
  {
    var scheduledTime := timestamp * 1000;
    if scheduledTime < nowMs then Status[2] else Status[0]
  }

  // ---------------------------------------------------------------------------
  // The server: the registry and the event handler
  // ---------------------------------------------------------------------------

  class Server {
    /** The `oracles` Map, in insertion order. */
    var oracles: seq<Entry>

    ghost predicate Valid()
      reads this
    {
      DistinctKeys(oracles)
    }

    /** `let oracles = new Map()`. */
    constructor ()
      ensures Valid() && oracles == []
    {
      oracles := [];
    }

    /** `oracles.set(account, indexes)`, once an oracle's indexes have been read back. */
    method SetOracle(account: Address, indexes: seq<int>)
      requires Valid()
      modifies this
      ensures Valid()
      ensures oracles == Put(old(oracles), account, indexes)
    {
      PutDistinct(oracles, account, indexes);
      oracles := Put(oracles, account, indexes);
    }

    /**
     The `set` calls of `registerOracles`, in the order in which the accounts'
     `getMyIndexes` calls resolved (`resolved` gives each account with the
     indexes it read back).
     */
    method RegisterOracles(resolved: seq<Entry>)
      requires Valid()
      modifies this
      ensures Valid()
      ensures oracles == PutAll(old(oracles), resolved)
    {
      var k := 0;
      while k < |resolved|
        invariant 0 <= k <= |resolved|
        invariant Valid()
        invariant oracles == PutAll(old(oracles), resolved[..k])
      {
        assert resolved[..k + 1][..k] == resolved[..k];
        SetOracle(resolved[k].0, resolved[k].1);
        k := k + 1;
      }
      assert resolved[..|resolved|] == resolved;
    }

    /** The nested loop that collects `approvedOracles` for an event's index; it only reads the registry. */
    method MatchOracles(indexFromEvent: int) returns (approvedOracles: seq<Address>)
      ensures approvedOracles == Matches(oracles, indexFromEvent)
    {
      approvedOracles := [];
      var i := 0;
      while i < |oracles|
        invariant 0 <= i <= |oracles|
        invariant approvedOracles == Matches(oracles[..i], indexFromEvent)
      {
        var (address, indexes) := oracles[i];
        var j := 0;
        while j < |indexes|
          invariant 0 <= j <= |indexes|
          invariant approvedOracles == Matches(oracles[..i], indexFromEvent) + SlotMatches(address, indexes[..j], indexFromEvent)
        {
          if indexes[j] == indexFromEvent {
            approvedOracles := approvedOracles + [address];
          }
          assert indexes[..j + 1] == indexes[..j] + [indexes[j]];
          SlotMatchesAppend(address, indexes[..j], [indexes[j]], indexFromEvent);
          j := j + 1;
        }
        assert indexes[..j] == indexes;
        assert oracles[..i + 1] == oracles[..i] + [oracles[i]];
        MatchesAppend(oracles[..i], [oracles[i]], indexFromEvent);
        i := i + 1;
      }
      assert oracles[..i] == oracles;
    }

    /**
     The `OracleRequest` callback, given the subscription's `error` and `event`
     (`None` when no event came with the error), with `nowMs` standing for
     `Date.now()`. An error is only logged and the handler goes on; without an
     event, reading its fields throws and nothing is submitted. Otherwise it
     issues one submission per entry of `approvedOracles`, in that order: each
     carries the event's index, airline, flight and timestamp and the one chosen
     code, and is sent from its approved oracle. Without a `modifies` clause,
     handling an event leaves the registry as it was.
     */
    method OnOracleRequest(error: Option<string>, event: Option<OracleRequest>, nowMs: int)
      returns (submissions: seq<Submission>)
      ensures event.None? ==> submissions == []
      ensures event.Some? ==> |submissions| == |Matches(oracles, event.value.index)|
      ensures event.Some? ==>
                forall k :: 0 <= k < |submissions| ==>
                  submissions[k] == Submission(event.value.index, event.value.airline, event.value.flight,
                                               event.value.timestamp, ChooseStatus(event.value.timestamp, nowMs),
                                               Matches(oracles, event.value.index)[k], SubmitGas)
    {
      if event.None? {
        // `event.returnValues` throws a TypeError before any submission.
        return [];
      }
      var ev := event.value;
      var flightStatusCode := Status[0];
      var scheduledTime := ev.timestamp * 1000;
      var approvedOracles := MatchOracles(ev.index);
      if scheduledTime < nowMs {
        flightStatusCode := Status[2];
      }
      submissions := [];
      var k := 0;
      while k < |approvedOracles|
        invariant 0 <= k <= |approvedOracles|
        invariant |submissions| == k
        invariant forall m :: 0 <= m < k ==>
                    submissions[m] == Submission(ev.index, ev.airline, ev.flight, ev.timestamp,
                                                 flightStatusCode, approvedOracles[m], SubmitGas)
      {
        submissions := submissions + [Submission(ev.index, ev.airline, ev.flight, ev.timestamp,
                                                 flightStatusCode, approvedOracles[k], SubmitGas)];
        k := k + 1;
      }
    }
  }

  /** The oracles the submissions of one event are sent from, in order. */
  function Senders(submissions: seq<Submission>): seq<Address>
  {
    seq(|submissions|, k requires 0 <= k < |submissions| => submissions[k].from)
  }

  /**
   What the handler's submissions mean for one oracle: it sends exactly one per
   slot holding the event's index, and an oracle that holds no such slot, or is
   not registered, sends none.
   */
  lemma SubmissionsPerOracle(e: seq<Entry>, event: OracleRequest, nowMs: int, submissions: seq<Submission>, account: Address)
    requires DistinctKeys(e)
    requires |submissions| == |Matches(e, event.index)|
    requires forall k :: 0 <= k < |submissions| ==> submissions[k].from == Matches(e, event.index)[k]
    ensures multiset(Senders(submissions))[account] ==
              match Lookup(e, account)
              case None => 0
              case Some(slots) => multiset(slots)[event.index]
  {
    assert Senders(submissions) == Matches(e, event.index);
    MatchesMultiplicity(e, event.index, account);
  }
}
