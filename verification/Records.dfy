/** Sandbox and matrix records, as the stores keep them. */
module Records {
  import opened Wrappers

  type Name = string

  /** Runtime ids in the order the runtime hands them out: a new one was never used before. */
  type Id = nat

  /** The states the controller and the reconciler assign. */
  datatype SandboxState = Pending | Creating | Running | Ready | Stopped | Error

  /** A resource string after parsing: empty, unreadable, or an exact number of units. */
  datatype Amount = Unset | Malformed | Units(value: int)

  datatype Resources = Resources(cpu: Amount, memory: Amount, disk: Amount, gpus: int)

  datatype Sandbox = Sandbox(state: SandboxState, runtimeId: Option<Id>, team: string, resources: Resources)

  datatype Member = Member(name: Name, blueprint: string)

  datatype MatrixState = Active | Halted

  datatype Matrix = Matrix(members: seq<Member>, team: string, state: MatrixState)

  /** A session in a sandbox. */
  datatype Session = Session(sandbox: Name, active: bool)

  /** The sandbox counts as active: it has a running container. */
  predicate IsActive(sb: Sandbox) {
    sb.state == Running || sb.state == Ready
  }

  /** How many bytes or cores an amount adds to a team's usage: unreadable strings add nothing. */
  function Measured(a: Amount): int {
    if a.Units? then a.value else 0
  }
}
