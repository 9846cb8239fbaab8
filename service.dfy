/** A UPnP service description (UPnP/UPnPService.cpp): fixed tables of
    actions and state variables, and the SCPD fragments built from them. */
module Service {
  import opened Text

  const N_ACTIONS := 4
  const N_VARIABLES := 4

  /** The identity of an action's handler function; the model never calls it. */
  type Handler = nat

  datatype Action = Action(name: string, handler: Handler, xml: string)
  datatype StateVariable = StateVariable(name: string, dataType: string, sendEvents: bool)

  /** A default-constructed table slot. */
  const BlankAction := Action("", 0, "")
  const BlankVariable := StateVariable("", "", false)

  // ---------------------------------------------------------------------
  // The service element

  const ServiceOpen := "<service><serviceType>"
  const TypeToId := "</serviceType><serviceId>"
  const ServiceTail := "</serviceId>" + "<controlURL>/control</controlURL>"
    + "<eventSubURL>/event</eventSubURL>" + "<SCPDURL>/sensor.xml</SCPDURL>" + "</service>"

  function ServiceXML(serviceType: string, serviceId: string): string
  {
    ServiceOpen + serviceType + TypeToId + serviceId + ServiceTail
  }

  /** The text of `s` before its first `<`. */
  function UpToTag(s: string): (t: string)
    ensures |t| <= |s| && t == s[..|t|] && '<' !in t
    ensures |t| < |s| ==> s[|t|] == '<'
  {
    if s == [] || s[0] == '<' then []
    else
      var t := [s[0]] + UpToTag(s[1..]);
      assert s[..|t|] == [s[0]] + s[1..][..|t| - 1];
      t
  }

  lemma {:induction false} UpToTagOfField(x: string, rest: string)
    requires '<' !in x && rest != [] && rest[0] == '<'
    ensures UpToTag(x + rest) == x
    decreases |x|
  {
    if x != [] {
      assert (x + rest)[1..] == x[1..] + rest;
      UpToTagOfField(x[1..], rest);
    }
  }

  lemma SplitFields(a: string, b: string, c: string, d: string, e: string)
    ensures (a + b + c + d + e)[|a|..] == b + (c + d + e)
    ensures (a + b + c + d + e)[|a| + |b| + |c|..] == d + e
  {
  }

  /** A reader of the service element gets the type and the id back, when
      neither holds a `<`; the control, event and SCPD URLs are fixed. */
  lemma ServiceXMLFields(serviceType: string, serviceId: string)
    requires '<' !in serviceType && '<' !in serviceId
    ensures var r := ServiceXML(serviceType, serviceId);
      var idAt := |ServiceOpen| + |serviceType| + |TypeToId|;
      UpToTag(r[|ServiceOpen|..]) == serviceType
      && UpToTag(r[idAt..]) == serviceId
      && r[idAt + |serviceId|..] == ServiceTail
  {
    var r := ServiceXML(serviceType, serviceId);
    SplitFields(ServiceOpen, serviceType, TypeToId, serviceId, ServiceTail);
    UpToTagOfField(serviceType, TypeToId + serviceId + ServiceTail);
    assert ServiceTail[0] == '<';
    UpToTagOfField(serviceId, ServiceTail);
    assert (serviceId + ServiceTail)[|serviceId|..] == ServiceTail;
  }

  // ---------------------------------------------------------------------
  // The action list

  const ActionListOpen := "<ActionList>\r\n"
  const ActionListClose := "</ActionList>\r\n"

  /** The actions' XML fragments, in table order. */
  function Xmls(acts: seq<Action>): string
  {
    if acts == [] then [] else Xmls(acts[..|acts| - 1]) + acts[|acts| - 1].xml
  }

  function ActionListXML(acts: seq<Action>): string
  {
    ActionListOpen + Xmls(acts) + ActionListClose
  }

  lemma {:induction false} XmlsAppend(a: seq<Action>, b: seq<Action>)
    ensures Xmls(a + b) == Xmls(a) + Xmls(b)
    decreases |b|
  {
    if b != [] {
      var b' := b[..|b| - 1];
      assert (a + b)[..|a + b| - 1] == a + b';
      assert (a + b)[|a + b| - 1] == b[|b| - 1];
      XmlsAppend(a, b');
      calc {
        Xmls(a + b);
        Xmls(a + b') + b[|b| - 1].xml;
        Xmls(a) + Xmls(b') + b[|b| - 1].xml;
        Xmls(a) + Xmls(b);
      }
    } else {
      assert a + b == a;
    }
  }

  /** The list holds the i-th action's fragment right after the fragments of
      the actions registered before it: registration order is kept. */
  lemma ActionListInOrder(acts: seq<Action>, i: nat)
    requires i < |acts|
    ensures ActionListXML(acts)
      == ActionListOpen + Xmls(acts[..i]) + acts[i].xml + Xmls(acts[i + 1..]) + ActionListClose
  {
    assert acts == acts[..i] + [acts[i]] + acts[i + 1..];
    XmlsAppend(acts[..i] + [acts[i]], acts[i + 1..]);
    XmlsAppend(acts[..i], [acts[i]]);
    assert Xmls([acts[i]]) == acts[i].xml by {
      assert [acts[i]][..0] == [];
    }
  }

  /** A newly added action's fragment goes just before the closing tag. */
  lemma ActionListGrows(acts: seq<Action>, a: Action)
    ensures ActionListXML(acts + [a]) == ActionListOpen + Xmls(acts) + a.xml + ActionListClose
  {
    assert (acts + [a])[..|acts|] == acts;
  }

  // ---------------------------------------------------------------------
  // The state table

  const StateTableOpen := "<serviceStateTable>\r\n"
  const StateTableClose := "</serviceStateTable>\r\n"
  const EventedTag := "<stateVariable sendEvents=\"yes\">"
  const PlainTag := "<stateVariable>"

  /** One variable's entry; no closing `</stateVariable>` follows it. */
  function Entry(v: StateVariable): string
  {
    (if v.sendEvents then EventedTag else PlainTag)
      + "<name>" + v.name + "</name><dataType>" + v.dataType + "</dataType>"
  }

  function Entries(vs: seq<StateVariable>): string
  {
    if vs == [] then [] else Entries(vs[..|vs| - 1]) + Entry(vs[|vs| - 1])
  }

  function StateTableXML(vs: seq<StateVariable>): string
  {
    StateTableOpen + Entries(vs) + StateTableClose
  }

  /** Whether an entry was written with the evented opening tag: the two tags
      part at their fifteenth character. */
  predicate EntrySendsEvents(e: string)
  {
    |e| > 14 && e[14] == ' '
  }

  /** Each entry carries its variable's eventing flag, its name and its data
      type, the name between `<name>` and `</name>`, and ends with
      `</dataType>`. */
  lemma EntryFields(v: StateVariable)
    ensures var e := Entry(v);
      var nameAt := (if v.sendEvents then |EventedTag| else |PlainTag|) + 6;
      EntrySendsEvents(e) == v.sendEvents
      && nameAt + |v.name| <= |e| && e[nameAt..nameAt + |v.name|] == v.name
      && e[nameAt + |v.name|..nameAt + |v.name| + 17] == "</name><dataType>"
      && e[|e| - 11..] == "</dataType>"
  {
  }

  lemma {:induction false} EntriesAppend(a: seq<StateVariable>, b: seq<StateVariable>)
    ensures Entries(a + b) == Entries(a) + Entries(b)
    decreases |b|
  {
    if b != [] {
      var b' := b[..|b| - 1];
      assert (a + b)[..|a + b| - 1] == a + b';
      assert (a + b)[|a + b| - 1] == b[|b| - 1];
      EntriesAppend(a, b');
      calc {
        Entries(a + b);
        Entries(a + b') + Entry(b[|b| - 1]);
        Entries(a) + Entries(b') + Entry(b[|b| - 1]);
        Entries(a) + Entries(b);
      }
    } else {
      assert a + b == a;
    }
  }

  /** The i-th variable's entry follows the entries of the variables
      registered before it, so the table lists the variables in order. */
  lemma StateTableInOrder(vs: seq<StateVariable>, i: nat)
    requires i < |vs|
    ensures StateTableXML(vs)
      == StateTableOpen + Entries(vs[..i]) + Entry(vs[i]) + Entries(vs[i + 1..]) + StateTableClose
  {
    assert vs == vs[..i] + [vs[i]] + vs[i + 1..];
    EntriesAppend(vs[..i] + [vs[i]], vs[i + 1..]);
    EntriesAppend(vs[..i], [vs[i]]);
    assert Entries([vs[i]]) == Entry(vs[i]) by {
      assert [vs[i]][..0] == [];
    }
  }

  /** One pass of the state-table loop: the opening tag the flag selects,
      then the name and the data type. */
  method AppendEntry(r: string, v: StateVariable) returns (r': string)
    ensures r' == r + Entry(v)
  {
    r' := r;
    if v.sendEvents {
      r' := r' + EventedTag;
    } else {
      r' := r' + PlainTag;
    }
    r' := r' + "<name>";
    r' := r' + v.name;
    r' := r' + "</name><dataType>";
    r' := r' + v.dataType;
    r' := r' + "</dataType>";
  }

  // ---------------------------------------------------------------------
  // The service object

  /** The file-scope `nvariables`: one counter that every service shares. */
  class VariableCount {
    var n: nat

    constructor ()
      ensures n == 0
    {
      n := 0;
    }
  }

  class UPnPService {
    var serviceType: string
    var serviceId: string
    var nactions: nat
    var actions: array<Action>
    var variables: array<StateVariable>
    const count: VariableCount

    ghost predicate Valid()
      reads this, count
    {
      actions.Length == N_ACTIONS && variables.Length == N_VARIABLES
      && nactions <= N_ACTIONS && count.n <= N_VARIABLES
    }

    /** The actions registered so far, in order. */
    function Actions(): seq<Action>
      reads this, actions
      requires nactions <= actions.Length
    {
      actions[..nactions]
    }

    /** The variables the shared counter says are registered. */
    function Variables(): seq<StateVariable>
      reads this, count, variables
      requires count.n <= variables.Length
    {
      variables[..count.n]
    }

    /** Both tables hold four default slots and both counts are zero; the
        shared variable counter is reset for every service. */
    constructor (serviceType: string, serviceId: string, count: VariableCount)
      modifies count
      ensures Valid() && this.count == count
      ensures this.serviceType == serviceType && this.serviceId == serviceId
      ensures nactions == 0 && count.n == 0
      ensures fresh(actions) && fresh(variables)
      ensures actions[..] == seq(N_ACTIONS, _ => BlankAction)
      ensures variables[..] == seq(N_VARIABLES, _ => BlankVariable)
    {
      this.serviceType := serviceType;
      this.serviceId := serviceId;
      this.count := count;
      nactions := 0;
      count.n := 0;
      actions := new Action[N_ACTIONS](_ => BlankAction);
      variables := new StateVariable[N_VARIABLES](_ => BlankVariable);
    }

    /** Writes the action into the next slot; the source checks no bound. */
    method AddAction(name: string, handler: Handler, xml: string)
      requires Valid() && nactions < N_ACTIONS
      modifies this, actions
      ensures Valid() && actions == old(actions) && variables == old(variables)
      ensures serviceType == old(serviceType) && serviceId == old(serviceId)
      ensures actions[..] == old(actions[..])[old(nactions) := Action(name, handler, xml)]
      ensures nactions == old(nactions) + 1
      ensures Actions() == old(Actions()) + [Action(name, handler, xml)]
    {
      actions[nactions] := Action(name, handler, xml);
      nactions := nactions + 1;
      assert actions[..nactions] == old(actions[..nactions]) + [Action(name, handler, xml)];
    }

    /** Writes the variable at the shared count, which then rises by one. */
    method AddStateVariable(name: string, dataType: string, sendEvents: bool)
      requires Valid() && count.n < N_VARIABLES
      modifies variables, count
      ensures Valid()
      ensures variables[..] == old(variables[..])[old(count.n) := StateVariable(name, dataType, sendEvents)]
      ensures count.n == old(count.n) + 1
      ensures Variables() == old(Variables()) + [StateVariable(name, dataType, sendEvents)]
    {
      variables[count.n] := StateVariable(name, dataType, sendEvents);
      count.n := count.n + 1;
      assert variables[..count.n] == old(variables[..count.n]) + [StateVariable(name, dataType, sendEvents)];
    }

    function GetServiceXML(): (r: string)
      reads this
      ensures r == ServiceXML(serviceType, serviceId)
    {
      ServiceOpen + serviceType + TypeToId + serviceId + ServiceTail
    }

    method GetActionListXML() returns (r: string)
      requires Valid()
      ensures r == ActionListXML(Actions())
    {
      r := ActionListOpen;
      var i := 0;
      while i < nactions
        invariant 0 <= i <= nactions
        invariant r == ActionListOpen + Xmls(actions[..i])
      {
        assert actions[..i + 1][..i] == actions[..i];
        ConcatAssoc(ActionListOpen, Xmls(actions[..i]), actions[i].xml);
        r := r + actions[i].xml;
        i := i + 1;
      }
      r := r + ActionListClose;
    }

    method GetStateVariableListXML() returns (r: string)
      requires Valid()
      ensures r == StateTableXML(Variables())
    {
      r := StateTableOpen;
      var i := 0;
      while i < count.n
        invariant 0 <= i <= count.n
        invariant r == StateTableOpen + Entries(variables[..i])
      {
        assert variables[..i + 1][..i] == variables[..i];
        ConcatAssoc(StateTableOpen, Entries(variables[..i]), Entry(variables[i]));
        r := AppendEntry(r, variables[i]);
        i := i + 1;
      }
      r := r + StateTableClose;
    }
  }

  /** Because the variable count is shared, constructing a second service
      empties the state table the first one reports, and the first one's
      variables stay behind in its own array. */
  method SecondServiceHidesVariables() returns (before: string, after: string)
    ensures before == StateTableXML([StateVariable("Status", "boolean", true)])
    ensures after == StateTableXML([])
  {
    var count := new VariableCount();
    var first := new UPnPService("urn:schemas-upnp-org:service:SwitchPower:1", "urn:upnp-org:serviceId:SwitchPower:1", count);
    first.AddStateVariable("Status", "boolean", true);
    before := first.GetStateVariableListXML();
    assert first.Variables() == [StateVariable("Status", "boolean", true)];
    var second := new UPnPService("urn:schemas-upnp-org:service:Dimming:1", "urn:upnp-org:serviceId:Dimming:1", count);
    after := first.GetStateVariableListXML();
    assert first.Variables() == [];
  }
}
