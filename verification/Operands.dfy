/** Operands and the order they are run in (operator/v1/operand). */
module Operands {
  datatype RequeueStrategy = RequeueOnError | RequeueAlways

  type Name = string

  /** The static part of an operand: its name, the names it requires, its requeue strategy. */
  datatype Operand = Operand(name: Name, needs: seq<Name>, requeue: RequeueStrategy)

  /** The operands of each step; a step that holds nothing is the empty sequence. */
  type OperandOrder = seq<seq<Operand>>

  predicate Middle(n: nat, i: nat) {
    n % 2 == 1 && i == n / 2
  }

  /** The steps in reverse, except that the middle step of an odd number of steps is empty: the loop
      stops before it and the slot is never written. */
  function Reversed(o: OperandOrder): (r: OperandOrder)
    ensures |r| == |o|
  {
    seq(|o|, i requires 0 <= i < |o| => if Middle(|o|, i) then [] else o[|o| - 1 - i])
  }

  method Reverse(o: OperandOrder) returns (r: OperandOrder)
    ensures r == Reversed(o)
  {
    var slots := new seq<Operand>[|o|](_ => []);
    var left, right := 0, |o| - 1;
    while left < right
      invariant 0 <= left <= |o| && left + right == |o| - 1 && left <= right + 1
      invariant forall i :: 0 <= i < left ==> slots[i] == o[|o| - 1 - i] && slots[|o| - 1 - i] == o[i]
      invariant forall i :: left <= i <= right ==> slots[i] == []
    {
      slots[left], slots[right] := o[right], o[left];
      left, right := left + 1, right - 1;
    }
    r := slots[..];
    assert forall i :: 0 <= i < |o| ==> r[i] == Reversed(o)[i];
  }

  /** Reversing twice gives the order back exactly when no step is lost in the middle. */
  lemma ReverseInvolution(o: OperandOrder)
    ensures Reversed(Reversed(o)) == o <==> |o| % 2 == 0 || o[|o| / 2] == []
  {
    var n, rr := |o|, Reversed(Reversed(o));
    forall i | 0 <= i < n ensures rr[i] == if Middle(n, i) then [] else o[i] {
      if !Middle(n, i) {
        assert !Middle(n, n - 1 - i);
      }
    }
    if n % 2 == 1 {
      assert rr[n / 2] == [];
    }
  }

  method StepRequeueStrategy(step: seq<Operand>) returns (strategy: RequeueStrategy)
    ensures strategy == RequeueAlways <==> exists i :: 0 <= i < |step| && step[i].requeue == RequeueAlways
  {
    strategy := RequeueOnError;
    for k := 0 to |step|
      invariant strategy == RequeueOnError
      invariant forall i :: 0 <= i < k ==> step[i].requeue == RequeueOnError
    {
      if step[k].requeue == RequeueAlways {
        strategy := RequeueAlways;
        break;
      }
    }
  }
}
