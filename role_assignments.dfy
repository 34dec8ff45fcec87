/** The role-assignments client that `assignRole` calls, reduced to `Create`,
    and the scripted client the tests drive it with. */
module RoleAssignments {
  import opened Errors

  /** The principal kinds the authorization API knows. */
  datatype PrincipalType = User | Group | ServicePrincipal | ForeignGroup | Device

  /** The properties of a role assignment sent to `Create`. */
  datatype Parameters = Parameters(principalId: string, roleDefinitionId: string, principalType: PrincipalType)

  /** One call of `Create`, as the client receives it. */
  datatype CreateCall = CreateCall(scope: string, assignmentName: string, parameters: Parameters)

  /** What `Create` returns: a success, or an error. */
  datatype Response = Created | Failed(error: CreateError)

  /** The responses of a scripted client: call `i` (0-based) answers
      `prefix[i]`, and every call past the prefix answers `rest`. */
  datatype Script = Script(prefix: seq<Response>, rest: Response) {

    function At(i: nat): Response
    {
      if i < |prefix| then prefix[i] else rest
    }

    /** The script as seen after `n` calls have been answered. */
    function Drop(n: nat): (s: Script)
      ensures forall i: nat :: s.At(i) == At(n + i)
    {
      if n <= |prefix| then Script(prefix[n..], rest) else Script([], rest)
    }
  }

  /** `n` copies of `x`. */
  function Repeat<T>(x: T, n: nat): (r: seq<T>)
    ensures |r| == n
    ensures forall i :: 0 <= i < n ==> r[i] == x
  {
    if n == 0 then [] else Repeat(x, n - 1) + [x]
  }

  /** The mock client of the tests: answers from its script and counts the
      calls it receives; `sent` keeps what each call was given. */
  class MockRoleAssignmentsClient {
    const script: Script
    var callCount: nat
    var sent: seq<CreateCall>

    ghost predicate Valid()
      reads this
    {
      |sent| == callCount
    }

    constructor (script: Script)
      ensures Valid()
      ensures this.script == script && callCount == 0 && sent == []
    {
      this.script := script;
      callCount := 0;
      sent := [];
    }

    /** One call: it is counted and recorded, and answered by the script. */
    method Create(scope: string, assignmentName: string, parameters: Parameters) returns (r: Response)
      requires Valid()
      modifies this
      ensures Valid()
      ensures callCount == old(callCount) + 1
      ensures sent == old(sent) + [CreateCall(scope, assignmentName, parameters)]
      ensures r == script.At(old(callCount))
    {
      r := script.At(callCount);
      callCount := callCount + 1;
      sent := sent + [CreateCall(scope, assignmentName, parameters)];
    }
  }
}
