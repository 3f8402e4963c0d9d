// StateMachine: a node whose State children are switched on one at a time.
// Exit runs on the old state before Enter on the new one, and afterwards
// exactly the current state has processing enabled.

module StateMachines {

  /** A child node of the machine; IsState says whether it is a State. */
  class Node {
    const Name: string
    const IsState: bool
    /** SetProcess: whether _Process runs for this node. */
    var ProcessEnabled: bool
    /** State.StateOwner (meaningful for State nodes only). */
    var StateOwner: Node?

    constructor (name: string, isState: bool)
      ensures Name == name && IsState == isState
      ensures ProcessEnabled && StateOwner == null
    {
      Name := name;
      IsState := isState;
      ProcessEnabled := true;
      StateOwner := null;
    }
  }

  /** The EnterState / ExitState calls a state receives, in order. */
  datatype Call = ExitState(state: Node) | EnterState(state: Node)

  /**
   * The calls ChangeState makes on the way from one current state to the
   * next: an exit of the old state if there is one, then an enter of the
   * new state if there is one.
   */
  function ChangeCalls(from: Node?, to: Node?): (calls: seq<Call>)
    ensures |calls| == (if from != null then 1 else 0) + (if to != null then 1 else 0)
    ensures from != null <==> |calls| > 0 && calls[0].ExitState?
    ensures to != null <==> |calls| > 0 && calls[|calls| - 1].EnterState?
    ensures forall i :: 0 <= i < |calls| && calls[i].ExitState? ==> calls[i].state == from
    ensures forall i :: 0 <= i < |calls| && calls[i].EnterState? ==> calls[i].state == to
    ensures forall i, j :: 0 <= i < |calls| && 0 <= j < |calls| && calls[i].ExitState? && calls[j].EnterState? ==> i < j
  {
    (if from != null then [ExitState(from)] else []) + (if to != null then [EnterState(to)] else [])
  }

  class StateMachine {
    /** GetChildren(), in tree order. */
    const Children: seq<Node>
    var Customer: Node?
    var CurrentState: Node?
    /** Every EnterState / ExitState call made so far, oldest first. */
    var Calls: seq<Call>

    constructor (children: seq<Node>, customer: Node?)
      ensures Children == children && Customer == customer
      ensures CurrentState == null && Calls == []
    {
      Children := children;
      Customer := customer;
      CurrentState := null;
      Calls := [];
    }

    /** The State children whose processing is enabled. */
    function Active(): set<Node>
      reads this, Children
    {
      set c | c in Children && c.IsState && c.ProcessEnabled
    }

    /** _Ready: every State child is owned by the customer and stops processing. */
    method Ready()
      modifies Children
      ensures forall c :: c in Children && c.IsState ==> c.StateOwner == Customer && !c.ProcessEnabled
      ensures forall c :: c in Children && !c.IsState ==>
        c.StateOwner == old(c.StateOwner) && c.ProcessEnabled == old(c.ProcessEnabled)
      ensures Active() == {}
    {
      for i := 0 to |Children|
        invariant forall j :: 0 <= j < i && Children[j].IsState ==>
          Children[j].StateOwner == Customer && !Children[j].ProcessEnabled
        invariant forall c :: c in Children && !c.IsState ==>
          c.StateOwner == old(c.StateOwner) && c.ProcessEnabled == old(c.ProcessEnabled)
      {
        var child := Children[i];
        if child.IsState {
          child.StateOwner := Customer;
          child.ProcessEnabled := false;
        }
      }
    }

    /**
     * ChangeState: exit the old state, enter the new one, then enable
     * processing on exactly the State children equal to the new state.
     */
    method ChangeState(newState: Node?)
      requires newState == null || newState.IsState
      modifies this`CurrentState, this`Calls, Children
      ensures CurrentState == newState
      ensures Calls == old(Calls) + ChangeCalls(old(CurrentState), newState)
      ensures forall c :: c in Children && c.IsState ==> c.ProcessEnabled == (c == newState)
      ensures forall c :: c in Children ==> c.StateOwner == old(c.StateOwner)
      ensures forall c :: c in Children && !c.IsState ==> c.ProcessEnabled == old(c.ProcessEnabled)
      ensures Active() == if newState in Children then {newState} else {}
    {
      if CurrentState != null {
        Calls := Calls + [ExitState(CurrentState)];
      }
      CurrentState := newState;
      if CurrentState != null {
        Calls := Calls + [EnterState(CurrentState)];
      }
      for i := 0 to |Children|
        invariant CurrentState == newState
        invariant Calls == old(Calls) + ChangeCalls(old(CurrentState), newState)
        invariant forall j :: 0 <= j < i && Children[j].IsState ==>
          Children[j].ProcessEnabled == (Children[j] == newState)
        invariant forall c :: c in Children ==> c.StateOwner == old(c.StateOwner)
        invariant forall c :: c in Children && !c.IsState ==> c.ProcessEnabled == old(c.ProcessEnabled)
      {
        var child := Children[i];
        if child.IsState {
          child.ProcessEnabled := child == CurrentState;
        }
      }
    }
  }

  /**
   * Player._Ready: the player becomes the customer and the machine changes
   * to its Roam state, which afterwards is the only State child processing.
   */
  method StartPlayer(machine: StateMachine, player: Node, roam: Node)
    requires roam in machine.Children && roam.IsState
    modifies machine, machine.Children
    ensures machine.Customer == player && machine.CurrentState == roam
    ensures machine.Active() == {roam}
    ensures machine.Calls == old(machine.Calls) + ChangeCalls(old(machine.CurrentState), roam)
  {
    machine.Customer := player;
    machine.ChangeState(roam);
  }
}
