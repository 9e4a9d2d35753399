/** The component list of a reliability calculation: the component record, the
    default failure-rate table used when a component is added, and the two
    list edits the calculator offers (append a component, remove one by index). */
module Components {

  /** One line of the component list. `kind` is the component category
      (the source calls it `type`), `failureRate` is failures per unit time
      for one unit, `quantity` is how many units the system contains. */
  datatype Component = Component(kind: string, quantity: int, failureRate: real, description: string)

  /** The data-model invariant of a component: a positive count and a positive rate. */
  predicate Valid(c: Component) {
    c.quantity > 0 && c.failureRate > 0.0
  }

  predicate AllValid(cs: seq<Component>) {
    forall i :: 0 <= i < |cs| ==> Valid(cs[i])
  }

  /** The kind `addComponent` uses when it is called without an argument. */
  const DefaultKind: string := "电阻"

  /** Rate given to a kind that has no entry (or a falsy entry) in the table. */
  const FallbackRate: real := 0.000001

  /** The quantity every newly added component starts with. */
  const InitialQuantity: int := 1

  /** The kinds the calculator offers for selection, in display order. */
  const ComponentTypeOptions: seq<string> :=
    ["电阻", "电容", "集成电路", "晶体管", "连接器", "电感", "二极管", "变压器", "继电器", "传感器"]

  /** Default per-unit failure rate of each selectable kind. */
  const DefaultFailureRates: map<string, real> :=
    map[
      "电阻" := 0.000001,
      "电容" := 0.000002,
      "集成电路" := 0.00001,
      "晶体管" := 0.000005,
      "连接器" := 0.000003,
      "电感" := 0.0000015,
      "二极管" := 0.000004,
      "变压器" := 0.000008,
      "继电器" := 0.000015,
      "传感器" := 0.000012
    ]

  /** `defaultFailureRates[type] || 0.000001`: the table entry when there is one
      and it is truthy (non-zero), the fallback rate otherwise. */
  function DefaultRate(kind: string): (r: real)
    ensures kind in DefaultFailureRates && DefaultFailureRates[kind] != 0.0 ==> r == DefaultFailureRates[kind]
    ensures kind !in DefaultFailureRates ==> r == FallbackRate
    ensures r > 0.0
  {
    if kind in DefaultFailureRates && DefaultFailureRates[kind] != 0.0 then DefaultFailureRates[kind]
    else FallbackRate
  }

  /** The record `addComponent` builds for a kind. */
  function NewComponent(kind: string): Component {
    Component(kind, InitialQuantity, DefaultRate(kind), kind + "组件")
  }

  /** Appends one default component of the given kind at the end of the list. */
  function AddComponent(cs: seq<Component>, kind: string): (r: seq<Component>)
    ensures |r| == |cs| + 1
    ensures forall i :: 0 <= i < |cs| ==> r[i] == cs[i]
    ensures r[|cs|].kind == kind && r[|cs|].quantity == 1
    ensures r[|cs|].failureRate == (if kind in DefaultFailureRates then DefaultFailureRates[kind] else FallbackRate)
    ensures r[|cs|].description == kind + "组件"
    ensures Valid(r[|cs|])
  {
    cs + [NewComponent(kind)]
  }

  /** `addComponent()` with no argument adds a resistor. */
  function AddDefaultComponent(cs: seq<Component>): (r: seq<Component>)
    ensures |r| == |cs| + 1 && r[..|cs|] == cs
    ensures r[|cs|] == Component("电阻", 1, 0.000001, "电阻组件")
  {
    AddComponent(cs, DefaultKind)
  }

  /** Removes the component at position `i` (`splice(i, 1)` for an index in range);
      the others keep their relative order. */
  function RemoveComponent(cs: seq<Component>, i: int): (r: seq<Component>)
    requires 0 <= i < |cs|
    ensures |r| == |cs| - 1
    ensures forall j :: 0 <= j < i ==> r[j] == cs[j]
    ensures forall j :: i <= j < |r| ==> r[j] == cs[j + 1]
    ensures multiset(r) + multiset{cs[i]} == multiset(cs)
  {
    assert cs == cs[..i] + [cs[i]] + cs[i + 1..];
    cs[..i] + cs[i + 1..]
  }

  /** Every kind the calculator offers has its own entry in the default table,
      and the table prices nothing else. */
  lemma OptionsMatchTable()
    ensures forall k :: k in ComponentTypeOptions <==> k in DefaultFailureRates
  {
  }

  /** Removing the component just added gives back the original list. */
  lemma RemoveUndoesAdd(cs: seq<Component>, kind: string)
    ensures RemoveComponent(AddComponent(cs, kind), |cs|) == cs
  {
    var added := AddComponent(cs, kind);
    assert added[..|cs|] == cs;
  }

  /** Adding a component keeps a valid list valid. */
  lemma AddPreservesValid(cs: seq<Component>, kind: string)
    requires AllValid(cs)
    ensures AllValid(AddComponent(cs, kind))
  {
  }

  /** Removing a component keeps a valid list valid. */
  lemma RemovePreservesValid(cs: seq<Component>, i: int)
    requires AllValid(cs)
    requires 0 <= i < |cs|
    ensures AllValid(RemoveComponent(cs, i))
  {
  }
}
