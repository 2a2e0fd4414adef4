/** The code generator's bookkeeping: fresh temporary identifiers and the stack of
    macro parameters that have not been assigned yet. */
module Codegen {
  import opened Wrappers
  import opened Decimal
  import Idtracking

  /** The temporary identifier handed out as the `k`-th: `'t_%d' % k`. */
  function TempName(k: nat): string {
    "t_" + NatToString(k)
  }

  /** Temporary identifiers handed out at different counts differ. */
  lemma TempNameInjective(i: nat, j: nat)
    ensures TempName(i) == TempName(j) ==> i == j
  {
    if TempName(i) == TempName(j) {
      assert NatToString(i) == TempName(i)[2..] == TempName(j)[2..] == NatToString(j);
      NatToStringInjective(i, j);
    }
  }

  /** A temporary identifier never clashes with a frame's variable identifier. */
  lemma TempNameIsNoIdent(k: nat, level: nat, name: string)
    ensures TempName(k) != Idtracking.Ident(level, name)
  {
    assert TempName(k)[0] == 't' && Idtracking.Ident(level, name)[0] == 'l';
  }

  /** All temporary identifiers handed out after `last` calls. */
  ghost function Issued(last: nat): set<string> {
    set k: nat | 1 <= k <= last :: TempName(k)
  }

  lemma IssuedIsNew(last: nat)
    ensures TempName(last + 1) !in Issued(last)
    ensures Issued(last + 1) == Issued(last) + {TempName(last + 1)}
  {
    forall k: nat | 1 <= k <= last
      ensures TempName(k) != TempName(last + 1)
    {
      TempNameInjective(k, last + 1);
    }
  }

  /** `push_parameter_definitions`, on the stack value. */
  function Pushed(stack: seq<set<string>>, targets: set<string>): seq<set<string>> {
    stack + [targets]
  }

  /** `pop_parameter_definitions`, on the stack value: `list.pop` raises on an empty list. */
  function Popped(stack: seq<set<string>>): Result<seq<set<string>>> {
    if stack == [] then Raised(IndexError) else Ok(stack[..|stack| - 1])
  }

  /** `mark_parameter_stored(target)`, on the stack value. */
  function Marked(stack: seq<set<string>>, target: string): seq<set<string>> {
    if stack == [] then stack else stack[..|stack| - 1] + [stack[|stack| - 1] - {target}]
  }

  /** `parameter_is_undeclared(target)`, on the stack value. */
  function Undeclared(stack: seq<set<string>>, target: string): bool {
    stack != [] && target in stack[|stack| - 1]
  }

  /** Popping what was pushed restores the stack. */
  lemma PopUndoesPush(stack: seq<set<string>>, targets: set<string>)
    ensures Popped(Pushed(stack, targets)) == Ok(stack)
  {
    assert Pushed(stack, targets)[..|stack|] == stack;
  }

  /** Right after a push, exactly the pushed targets are undeclared. */
  lemma PushedUndeclared(stack: seq<set<string>>, targets: set<string>, target: string)
    ensures Undeclared(Pushed(stack, targets), target) <==> target in targets
  {
  }

  /** A stored parameter is no longer undeclared; every other target keeps its
      status; the stack keeps its depth. */
  lemma MarkedStored(stack: seq<set<string>>, target: string, other: string)
    ensures !Undeclared(Marked(stack, target), target)
    ensures other != target ==> Undeclared(Marked(stack, target), other) == Undeclared(stack, other)
    ensures |Marked(stack, target)| == |stack|
  {
  }

  /** Marking only touches the innermost set: popping afterwards gives the same
      stack as popping before. */
  lemma MarkThenPop(stack: seq<set<string>>, target: string)
    ensures Popped(Marked(stack, target)) == Popped(stack)
  {
    if stack != [] {
      assert Marked(stack, target)[..|stack| - 1] == stack[..|stack| - 1];
    }
  }

  class CodeGenerator {
    var lastIdentifier: nat
    var paramDefBlock: seq<set<string>>

    /** A new generator has handed out no identifier and tracks no parameters. */
    constructor ()
      ensures lastIdentifier == 0 && paramDefBlock == []
    {
      lastIdentifier := 0;
      paramDefBlock := [];
    }

    /** `temporary_identifier()`: a name never handed out before by this generator. */
    method TemporaryIdentifier() returns (r: string)
      modifies this
      ensures lastIdentifier == old(lastIdentifier) + 1 && paramDefBlock == old(paramDefBlock)
      ensures r == TempName(lastIdentifier)
      ensures r !in Issued(old(lastIdentifier))
      ensures Issued(lastIdentifier) == Issued(old(lastIdentifier)) + {r}
    {
      lastIdentifier := lastIdentifier + 1;
      r := "t_" + NatToString(lastIdentifier);
      IssuedIsNew(lastIdentifier - 1);
    }

    /** `push_parameter_definitions(frame)`: push the frame's parameter targets. */
    method PushParameterDefinitions(symbols: Idtracking.Symbols)
      modifies this
      ensures paramDefBlock == Pushed(old(paramDefBlock), Idtracking.ParamTargets(symbols.Own()))
      ensures lastIdentifier == old(lastIdentifier)
    {
      var targets := symbols.DumpParamTargets();
      paramDefBlock := paramDefBlock + [targets];
    }

    /** `pop_parameter_definitions()`. */
    method PopParameterDefinitions() returns (r: Outcome)
      modifies this
      ensures r.Failed? <==> Popped(old(paramDefBlock)).Raised?
      ensures r.Failed? ==> r.error == IndexError && paramDefBlock == old(paramDefBlock)
      ensures r.Done? ==> Popped(old(paramDefBlock)) == Ok(paramDefBlock)
      ensures lastIdentifier == old(lastIdentifier)
    {
      if paramDefBlock == [] {
        return Failed(IndexError);
      }
      paramDefBlock := paramDefBlock[..|paramDefBlock| - 1];
      r := Done;
    }

    /** `mark_parameter_stored(target)`. */
    method MarkParameterStored(target: string)
      modifies this
      ensures paramDefBlock == Marked(old(paramDefBlock), target)
      ensures lastIdentifier == old(lastIdentifier)
    {
      if paramDefBlock != [] {
        var last := |paramDefBlock| - 1;
        paramDefBlock := paramDefBlock[..last] + [paramDefBlock[last] - {target}];
      }
    }

    /** `parameter_is_undeclared(target)`: whether the innermost parameter set,
        if any, still holds the target. */
    method ParameterIsUndeclared(target: string) returns (r: bool)
      ensures r <==> paramDefBlock != [] && target in paramDefBlock[|paramDefBlock| - 1]
      ensures r == Undeclared(paramDefBlock, target)
    {
      if paramDefBlock == [] {
        return false;
      }
      r := target in paramDefBlock[|paramDefBlock| - 1];
    }
  }
}
