/**
 The dapp UI's two lookups from an airline id (the string value of a form
 field) to an airline address (src/dapp/index.js). Both start from an
 `undefined` local and assign to it; `None` stands for `undefined`.

 `defaultAirlinesAddress` is a `switch` whose clause for '3' has no `break`, so
 control falls through into the `default` clause. The switch is modelled with
 JavaScript's own rules: control enters at the first clause whose label equals
 the id (or at `default`) and runs the statements of that clause and of every
 clause after it until a `break`.
 */
module DappAirlines {
  import opened Common

  const FirstAirline: Address := "0xcbd22ff1ded1423fbc24a7af2148745878800024"
  const SecondAirline: Address := "0xc257274276a4e539741ca11b590b9447b26a8051"
  const ThirdAirline: Address := "0x2f2899d6d35b1a48a4fbdc93a37a72f264a9fca7"

  /** A statement inside a switch clause: `address = ...;` or `break;`. */
  datatype Stmt = Assign(address: Address) | Break

  /** A switch clause: `case label:` (or `default:` when `caseValue` is `None`) and its statements. */
  datatype Clause = Clause(caseValue: Option<string>, body: seq<Stmt>)

  /** The switch of `defaultAirlinesAddress`, as written: no `break` after the assignment for '3'. */
  const DefaultSwitch: seq<Clause> := [
    Clause(Some("1"), [Assign(FirstAirline), Break]),
    Clause(Some("2"), [Assign(SecondAirline), Break]),
    Clause(Some("3"), [Assign(ThirdAirline)]),
    Clause(None, [Break])
  ]

  /** The same switch with a `break` closing the clause for '3'. */
  const DefaultSwitchWithBreak: seq<Clause> := DefaultSwitch[2 := Clause(Some("3"), [Assign(ThirdAirline), Break])]

  /** The clause control enters: the first labelled `id`, else the `default` clause, else none (`|clauses|`). */
  function EntryClause(clauses: seq<Clause>, id: string): (k: nat)
    ensures k <= |clauses|
    ensures k < |clauses| ==> clauses[k].caseValue == Some(id) || clauses[k].caseValue == None
    ensures forall j :: 0 <= j < k ==> clauses[j].caseValue != Some(id)
  {
    if exists j :: 0 <= j < |clauses| && clauses[j].caseValue == Some(id) then FirstLabelled(clauses, Some(id))
    else FirstLabelled(clauses, None)
  }

  /** The first clause carrying `label`, or `|clauses|`. */
  function FirstLabelled(clauses: seq<Clause>, value: Option<string>): (k: nat)
    ensures k <= |clauses|
    ensures k < |clauses| ==> clauses[k].caseValue == value
    ensures k == |clauses| ==> forall j :: 0 <= j < |clauses| ==> clauses[j].caseValue != value
    ensures forall j :: 0 <= j < k ==> clauses[j].caseValue != value
  {
    if clauses == [] then 0
    else if clauses[0].caseValue == value then 0
    else 1 + FirstLabelled(clauses[1..], value)
  }

  /** The statements of the given clauses, one clause after another. */
  function Statements(clauses: seq<Clause>): seq<Stmt>
  {
    if clauses == [] then [] else clauses[0].body + Statements(clauses[1..])
  }

  /** Run statements until a `break` or the end, starting from the local's value `address`. */
  function Run(stmts: seq<Stmt>, address: Option<Address>): Option<Address>
  {
    if stmts == [] then address
    else match stmts[0]
      case Break => address
      case Assign(a) => Run(stmts[1..], Some(a))
  }

  /** The local's value after `switch (id) { clauses }`, starting from `address`. */
  function Switch(clauses: seq<Clause>, id: string, address: Option<Address>): Option<Address>
  {
    Run(Statements(clauses[EntryClause(clauses, id)..]), address)
  }

  /** `defaultAirlinesAddress(id)`. */
  function DefaultAirlinesAddress(id: string): (r: Option<Address>)
    ensures id == "1" ==> r == Some(FirstAirline)
    ensures id == "2" ==> r == Some(SecondAirline)
    ensures id == "3" ==> r == Some(ThirdAirline)
    ensures id != "1" && id != "2" && id != "3" ==> r == None
  {
    var address := None;
    FallThroughRuns(id, address);
    Switch(DefaultSwitch, id, address)
  }

  /** Control enters at clause `k` when it is the first one labelled `id`.
      Dafny proves it from the definitions alone; it exists to be called by `DefaultSwitchEntry`. */
  lemma EntersAtCase(clauses: seq<Clause>, id: string, k: nat)
    requires k < |clauses| && clauses[k].caseValue == Some(id)
    requires forall j :: 0 <= j < k ==> clauses[j].caseValue != Some(id)
    ensures EntryClause(clauses, id) == k
  {
  }

  /** Control enters at the first `default` clause `k` when no clause is labelled `id`.
      Dafny proves it from the definitions alone; it exists to be called by `DefaultSwitchEntry`. */
  lemma EntersAtDefault(clauses: seq<Clause>, id: string, k: nat)
    requires forall j :: 0 <= j < |clauses| ==> clauses[j].caseValue != Some(id)
    requires k < |clauses| && clauses[k].caseValue == None
    requires forall j :: 0 <= j < k ==> clauses[j].caseValue != None
    ensures EntryClause(clauses, id) == k
  {
  }

  /** Which clause of `defaultAirlinesAddress`'s switch (as written, or with the extra `break`) control enters. */
  lemma DefaultSwitchEntry(clauses: seq<Clause>, id: string)
    requires clauses == DefaultSwitch || clauses == DefaultSwitchWithBreak
    ensures EntryClause(clauses, id) ==
              if id == "1" then 0 else if id == "2" then 1 else if id == "3" then 2 else 3
  {
    assert clauses[0].caseValue == Some("1") && clauses[1].caseValue == Some("2");
    assert clauses[2].caseValue == Some("3") && clauses[3].caseValue == None;
    assert "1"[0] == '1' && "2"[0] == '2' && "3"[0] == '3';
    if id == "1" {
      EntersAtCase(clauses, id, 0);
    } else if id == "2" {
      EntersAtCase(clauses, id, 1);
    } else if id == "3" {
      EntersAtCase(clauses, id, 2);
    } else {
      EntersAtDefault(clauses, id, 3);
    }
  }

  /** The statements from clause `k` on: that clause's, then those of the clauses after it.
      Dafny proves it from the definitions alone; it exists to be called by
      `FallThroughRuns` and `MissingBreakIsHarmless`. */
  lemma StatementsFrom(clauses: seq<Clause>, k: nat)
    requires k < |clauses|
    ensures Statements(clauses[k..]) == clauses[k].body + Statements(clauses[k + 1..])
  {
  }

  /** Entering a clause that assigns and then breaks yields its assignment, whatever follows.
      Dafny proves it from the definitions alone; it exists to be called by
      `FallThroughRuns` and `MissingBreakIsHarmless`. */
  lemma RunAssignBreak(a: Address, rest: seq<Stmt>, address: Option<Address>)
    ensures Run([Assign(a), Break] + rest, address) == Some(a)
  {
  }

  /** The switch of `defaultAirlinesAddress` under JavaScript's clause-entry and fall-through rules. */
  lemma FallThroughRuns(id: string, address: Option<Address>)
    ensures id == "1" ==> Switch(DefaultSwitch, id, address) == Some(FirstAirline)
    ensures id == "2" ==> Switch(DefaultSwitch, id, address) == Some(SecondAirline)
    ensures id == "3" ==> Switch(DefaultSwitch, id, address) == Some(ThirdAirline)
    ensures id != "1" && id != "2" && id != "3" ==> Switch(DefaultSwitch, id, address) == address
  {
    DefaultSwitchEntry(DefaultSwitch, id);
    var k := EntryClause(DefaultSwitch, id);
    StatementsFrom(DefaultSwitch, k);
    if id == "1" || id == "2" {
      RunAssignBreak(DefaultSwitch[k].body[0].address, Statements(DefaultSwitch[k + 1..]), address);
    } else if id == "3" {
      StatementsFrom(DefaultSwitch, 3);
      assert Statements(DefaultSwitch[2..]) == [Assign(ThirdAirline), Break] + [];
      RunAssignBreak(ThirdAirline, [], address);
    } else {
      assert Statements(DefaultSwitch[3..]) == [Break];
    }
  }

  /** The missing `break` after the clause for '3' is harmless: the `default` clause it falls into only breaks. */
  lemma MissingBreakIsHarmless(id: string, address: Option<Address>)
    ensures Switch(DefaultSwitch, id, address) == Switch(DefaultSwitchWithBreak, id, address)
  {
    FallThroughRuns(id, address);
    DefaultSwitchEntry(DefaultSwitchWithBreak, id);
    var k := EntryClause(DefaultSwitchWithBreak, id);
    StatementsFrom(DefaultSwitchWithBreak, k);
    if id == "1" || id == "2" || id == "3" {
      RunAssignBreak(DefaultSwitchWithBreak[k].body[0].address, Statements(DefaultSwitchWithBreak[k + 1..]), address);
    } else {
      assert Statements(DefaultSwitchWithBreak[3..]) == [Break];
    }
  }

  /**
   `getAirlinesAddress(id)`: an `if` for '1' and '2', then an `if/else` for '3'
   and '4' whose `else` branch assigns for every other id, so the second
   statement always overwrites the first.
   */
  function GetAirlinesAddress(id: string): (r: Option<Address>)
    ensures r.Some?
    ensures r == Some(SecondAirline) <==> id == "3" || id == "4"
    ensures r == Some(ThirdAirline) <==> id != "3" && id != "4"
    ensures r != Some(FirstAirline)
  {
    var address0: Option<Address> := None;
    var address1 := if id == "1" || id == "2" then Some(FirstAirline) else address0;
    var address2 := if id == "3" || id == "4" then Some(SecondAirline) else Some(ThirdAirline);
    address2
  }

  /** As written, ids '1' and '2' get the third airline: the assignment for them is dead. */
  lemma GetAirlinesAddressLosesFirst()
    ensures GetAirlinesAddress("1") == Some(ThirdAirline) != IntendedAirlinesAddress("1")
    ensures GetAirlinesAddress("2") == Some(ThirdAirline) != IntendedAirlinesAddress("2")
  {
  }

  /** `getAirlinesAddress` with the `if` chained by `else`, as its first branch evidently means. */
  function IntendedAirlinesAddress(id: string): (r: Option<Address>)
    ensures r.Some?
    ensures r == Some(FirstAirline) <==> id == "1" || id == "2"
    ensures r == Some(SecondAirline) <==> id == "3" || id == "4"
    ensures r == Some(ThirdAirline) <==> id != "1" && id != "2" && id != "3" && id != "4"
  {
    if id == "1" || id == "2" then Some(FirstAirline)
    else if id == "3" || id == "4" then Some(SecondAirline)
    else Some(ThirdAirline)
  }

  /** The intended lookup differs from the one written exactly on ids '1' and '2'. */
  lemma IntendedDiffersOnlyOnFirstBranch(id: string)
    ensures IntendedAirlinesAddress(id) != GetAirlinesAddress(id) <==> id == "1" || id == "2"
  {
  }
}
